/** `createGapWalk` of `client/src/core/gap_walk.ts` in its own form: a queue of
    ranges pushed, shifted and replaced, and four variables every call reassigns. */
module GapWalk {
  import opened OrderedMaps
  import M = GapWalkModel

  class GapWalk {
    var gaps: seq<M.Gap>
    var fetching: Option<nat>
    var gapAsk: Option<M.AskId>
    var mark: Option<nat>
    var epoch: Option<string>
    var calls: seq<M.Call>

    constructor ()
      ensures Abs() == M.Initial
    {
      gaps, fetching, gapAsk, mark, epoch, calls := [], None, None, None, None, [];
    }

    ghost function Abs(): M.State
      reads this
    {
      M.State(gaps, fetching, gapAsk, mark, epoch, calls)
    }

    method Fold(entry: M.Entry) returns (unreadable: Option<string>)
      modifies this`mark, this`calls
      ensures Abs() == M.Fold(old(Abs()), entry) && unreadable == entry.unreadable
    {
      if mark.None? || entry.position > mark.value { mark := Some(entry.position); }
      calls := calls + [M.Applied(entry.position)];
      unreadable := entry.unreadable;
    }

    method AskGap(reply: Option<M.AskId>)
      modifies this`fetching, this`gapAsk, this`calls
      ensures Abs() == M.AskGap(old(Abs()), reply)
    {
      if gaps == [] || fetching.Some? { return; }
      var front := gaps[0];
      fetching := Some(front.at);
      gapAsk := reply;
      calls := calls + [M.Asked(front.at, front.to)];
    }

    method FoldPage(records: seq<M.Entry>, invalidating: bool) returns (bad: Option<string>)
      modifies this`mark, this`calls
      ensures Abs() == M.FoldAll(old(Abs()), records, invalidating) && bad == M.FirstUnreadable(records)
    {
      bad := None;
      ghost var st := Abs();
      for i := 0 to |records|
        invariant gaps == old(gaps) && fetching == old(fetching)
        invariant M.FoldAll(Abs(), records[i..], invalidating) == M.FoldAll(st, records, invalidating)
        invariant M.FirstUnreadable(records) == if bad.Some? then bad else M.FirstUnreadable(records[i..])
      {
        assert records[i..][0] == records[i] && records[i..][1..] == records[i + 1..];
        var unreadable := Fold(records[i]);
        if invalidating { calls := calls + [M.Invalidated(records[i].position)]; }
        if bad.None? { bad := unreadable; }
      }
    }

    method Filled(range: M.Range, reply: Option<M.AskId>)
      modifies this
      ensures Abs() == M.Filled(old(Abs()), range, reply)
    {
      var invalidating := gaps != [] && gaps[0].records.Invalidating?;
      var bad := FoldPage(range.records, invalidating);
      if bad.Some? { calls := calls + [M.Unreadable(bad.value)]; }
      if fetching != Some(range.from) { return; }
      fetching := None;
      if gaps != [] {
        var front := gaps[0];
        gaps := gaps[1..];
        if range.next.Some? { gaps := [front.(at := range.next.value)] + gaps; }
      }
      AskGap(reply);
    }

    method Renewed(named: Option<string>)
      modifies this`mark, this`gaps, this`calls, this`epoch
      ensures Abs() == M.Renewed(old(Abs()), named)
    {
      if epoch.Some? && named.Some? && named != epoch {
        mark := None;
        gaps := [];
        calls := calls + [M.Forgotten];
      }
      if named.Some? { epoch := named; }
    }

    method Resume(head: Option<nat>)
      modifies this`gaps, this`calls
      ensures Abs() == M.Resume(old(Abs()), head)
    {
      var owed := M.Owed(gaps, if mark.Some? then mark.value else if head.Some? then head.value else 0);
      if mark.None? || head.None? || head.value < mark.value || head.value - owed > M.RESUME_PAGES * M.GAP_PAGE {
        calls := calls + [M.AskedAgain];
        return;
      }
      var was := gaps;
      gaps := M.AllInvalidating(gaps);
      if head.value > owed { gaps := gaps + [M.Gap(owed + 1, head.value, M.Invalidating)]; }
      calls := calls + [M.AskedInFlight];
      assert gaps == M.AllInvalidating(was)
          + (if head.value > owed then [M.Gap(owed + 1, head.value, M.Invalidating)] else []);
    }

    method Lagged(from: nat, to: nat, reply: Option<M.AskId>)
      modifies this
      ensures Abs() == M.Lagged(old(Abs()), from, to, reply)
    {
      gaps := gaps + [M.Gap(from, to, M.FoldedOnly)];
      AskGap(reply);
    }

    method Welcomed(named: Option<string>, head: Option<nat>, reply: Option<M.AskId>)
      modifies this
      ensures Abs() == M.Welcomed(old(Abs()), named, head, reply)
    {
      fetching := None;
      gapAsk := None;
      Renewed(named);
      Resume(head);
      AskGap(reply);
    }

    method Answered(id: M.AskId, outcome: M.Outcome, reply: Option<M.AskId>) returns (taken: bool)
      modifies this
      ensures Abs() == M.Answered(old(Abs()), id, outcome, reply) && taken == (old(gapAsk) == Some(id))
    {
      if gapAsk != Some(id) { return false; }
      gapAsk := None;
      if outcome.Page? { Filled(outcome.range, reply); }
      return true;
    }
  }
}
