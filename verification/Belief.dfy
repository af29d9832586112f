/** `client/src/core/belief.ts`, `createBelief`, with its batches.
    The belief is an object made anew by each write, and told apart by identity. */
module Belief {
  import opened BeliefFolds
  import opened OrderedMaps

  class Box {
    const held: Held

    constructor (held: Held)
      ensures this.held == held
    {
      this.held := held;
    }
  }

  /** What is asked of the store; `Throw` is a fold that fails. */
  datatype Call =
    | Fold(record: Record)
    | Adopt(answer: CityAnswer)
    | Refused(refusal: Option<string>)
    | Named(city: Option<string>)
    | Forget
    | Throw
    | Batch(calls: seq<Call>)

  /** The beliefs a call writes one after the other, and whether it fails: a failure
      ends every batch it is in. */
  function Trail(h: Held, call: Call): (seq<Held>, bool)
    decreases call, 0
  {
    match call
    case Fold(record) => (Writes(h, record), false)
    case Adopt(answer) => ([Adopted(h, answer)], false)
    case Refused(refusal) => ([h.(refusal := refusal)], false)
    case Named(city) => ([h.(city := city)], false)
    case Forget => ([EMPTY], false)
    case Throw => ([], true)
    case Batch(calls) => TrailAll(h, calls)
  }

  function TrailAll(h: Held, calls: seq<Call>): (seq<Held>, bool)
    decreases calls, 1
  {
    if calls == [] then ([], false)
    else
      var (first, failed) := Trail(h, calls[0]);
      if failed then (first, true)
      else
        var (rest, ended) := TrailAll(Last(h, first), calls[1..]);
        (first + rest, ended)
  }

  /** What subscribers are told of a call made outside any batch: every write of a
      plain call, the last of a batch and of a refusal, nothing when nothing moved. */
  function Told(h: Held, call: Call): seq<Held> {
    var writes := Trail(h, call).0;
    if call.Batch? then (if writes == [] then [] else [writes[|writes| - 1]]) else writes
  }

  class Store {
    var current: Box
    /** The published belief. */
    var store: Box
    var depth: nat
    /** What subscribers have been told, in order. */
    ghost var told: seq<Held>

    /** Outside every batch the published belief is the belief. */
    ghost predicate Valid()
      reads this
    {
      depth == 0 ==> store == current
    }

    constructor ()
      ensures Valid() && depth == 0 && current.held == EMPTY && told == []
    {
      var box := new Box(EMPTY);
      current := box;
      store := box;
      depth := 0;
      told := [];
    }

    method Write(next: Held)
      requires Valid()
      modifies this
      ensures Valid() && depth == old(depth) && fresh(current) && current.held == next
      ensures depth > 0 ==> store == old(store)
      ensures told == if depth == 0 then old(told) + [next] else old(told)
    {
      current := new Box(next);
      if depth == 0 {
        store := current;
        told := told + [next];
      }
    }

    /** The state after the writes `trail`: nothing published within a batch. */
    twostate predicate Moved(trail: seq<Held>)
      reads this
    {
      && depth == old(depth)
      && current.held == Last(old(current.held), trail)
      && (trail == [] ==> current == old(current))
      && (trail != [] ==> fresh(current))
      && (depth > 0 ==> store == old(store) && told == old(told))
    }

    method Apply(record: Record)
      requires Valid()
      modifies this
      ensures Valid() && Moved(Writes(old(current.held), record))
      ensures depth == 0 ==> told == old(told) + Writes(old(current.held), record)
    {
      var writes := Writes(current.held, record);
      ghost var start, heard := current, told;
      for i := 0 to |writes|
        invariant Valid() && depth == old(depth)
        invariant current.held == Last(old(current.held), writes[..i])
        invariant i == 0 ==> current == start
        invariant i > 0 ==> fresh(current)
        invariant depth > 0 ==> store == old(store)
        invariant told == if depth == 0 then heard + writes[..i] else heard
      {
        Write(writes[i]);
        assert writes[..i + 1] == writes[..i] + [writes[i]];
      }
      assert writes[..|writes|] == writes;
    }

    /** Folds under one publication; one that throws leaves the nesting as it found it. */
    method Batched(calls: seq<Call>) returns (failed: bool)
      requires Valid()
      modifies this
      ensures Valid() && Moved(TrailAll(old(current.held), calls).0)
      ensures failed == TrailAll(old(current.held), calls).1
      ensures depth == 0 ==> told == old(told) + Told(old(current.held), Batch(calls))
      decreases calls, 1
    {
      var before := current;
      depth := depth + 1;
      failed := All(calls);
      depth := depth - 1;
      if depth == 0 && current != before {
        store := current;
        told := told + [current.held];
      }
    }

    method All(calls: seq<Call>) returns (failed: bool)
      requires Valid() && depth > 0
      modifies this
      ensures Valid() && Moved(TrailAll(old(current.held), calls).0)
      ensures failed == TrailAll(old(current.held), calls).1
      decreases calls, 0
    {
      if calls == [] { return false; }
      failed := Perform(calls[0]);
      if !failed {
        failed := All(calls[1..]);
      }
    }

    method Perform(call: Call) returns (failed: bool)
      requires Valid()
      modifies this
      ensures Valid() && Moved(Trail(old(current.held), call).0)
      ensures failed == Trail(old(current.held), call).1
      ensures depth == 0 ==> told == old(told) + Told(old(current.held), call)
      decreases call, 2
    {
      failed := false;
      match call
      case Fold(record) => Apply(record);
      case Adopt(answer) => Write(Adopted(current.held, answer));
      case Refused(refusal) => Write(current.held.(refusal := refusal));
      case Named(city) => Write(current.held.(city := city));
      case Forget => Write(EMPTY);
      case Throw => failed := true;
      case Batch(calls) => failed := Batched(calls);
    }
  }
}
