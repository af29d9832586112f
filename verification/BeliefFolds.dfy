/** The folds of `client/src/core/belief.ts`: what one record, one answer or one call
    leaves of what the page believes. */
module BeliefFolds {
  import opened OrderedMaps

  datatype Scope = City | Building(addr: string) | Workshop(addr: string)

  datatype Policy = Policy(at: nat, policy: string)

  /** Where a run has got to, and whether only the stream has named it yet. */
  datatype Run = Run(lastSeq: nat, isLocal: bool)

  datatype Held = Held(
    halted: seq<Scope>, haltedAt: nat, sessions: map<string, nat>, policies: map<string, Policy>,
    runs: map<string, Run>, city: Option<string>, probed: Option<string>, refusal: Option<string>)

  const EMPTY := Held([], 0, map[], map[], map[], None, None, None)

  /** A record by kind, each field there only where it reads. */
  datatype Said =
    | CityHalted(scope: Option<Scope>, shut: Option<bool>)
    | CityInitialized(addr: Option<string>)
    | SessionOpened(room: Option<string>)
    | PolicyChanged(room: Option<string>, policy: Option<string>)
    | EndpointProbed(found: Option<string>)
    | Other

  /** A ledger line; the city's own have no run. */
  datatype Record = Record(at: nat, run: Option<string>, said: Said)

  datatype Summary = Summary(run: string, lastSeq: nat)

  datatype CityAnswer = CityAnswer(runs: seq<Summary>, halted: seq<Scope>)

  function Dropped(scopes: seq<Scope>, scope: Scope): (r: seq<Scope>)
    ensures forall s :: s in r <==> s in scopes && s != scope
  {
    if scopes == [] then []
    else
      assert scopes == [scopes[0]] + scopes[1..];
      (if scopes[0] == scope then [] else [scopes[0]]) + Dropped(scopes[1..], scope)
  }

  /** One word on a scope; `haltedAt` bars every older one. */
  function Shut(h: Held, at: nat, scope: Scope, shut: bool): Held {
    if at <= h.haltedAt then h
    else
      var without := Dropped(h.halted, scope);
      h.(halted := if shut then without + [scope] else without, haltedAt := at)
  }

  function SessionAt(h: Held, room: string): nat {
    if room in h.sessions then h.sessions[room] else 0
  }

  function PolicyAt(h: Held, room: string): nat {
    if room in h.policies then h.policies[room].at else 0
  }

  /** What a record writes, write after write: none when it says nothing newer. */
  function Writes(h: Held, r: Record): seq<Held> {
    match r.said
    case CityHalted(scope, shut) =>
      if scope.Some? && shut.Some? && r.at > h.haltedAt then [Shut(h, r.at, scope.value, shut.value)] else []
    case CityInitialized(addr) => [h.(city := addr)]
    case SessionOpened(room) =>
      if room.None? then RunWrites(h, r)
      else if r.at > SessionAt(h, room.value) then [h.(sessions := h.sessions[room.value := r.at])]
      else []
    case PolicyChanged(room, policy) =>
      if room.Some? && policy.Some? && r.at > PolicyAt(h, room.value) then
        var moved := h.(policies := h.policies[room.value := Policy(r.at, policy.value)]);
        [moved] + RunWrites(moved, r)
      else RunWrites(h, r)
    case EndpointProbed(found) => if found.Some? then [h.(probed := found)] else []
    case Other => RunWrites(h, r)
  }

  /** The run a record names is brought to its position, never back. */
  function RunWrites(h: Held, r: Record): seq<Held> {
    if r.run.None? then []
    else
      var was := if r.run.value in h.runs then h.runs[r.run.value] else Run(r.at, true);
      if was.lastSeq > r.at then [] else [h.(runs := h.runs[r.run.value := was.(lastSeq := r.at)])]
  }

  function Last(h: Held, writes: seq<Held>): Held {
    if writes == [] then h else writes[|writes| - 1]
  }

  function Apply(h: Held, r: Record): Held {
    Last(h, Writes(h, r))
  }

  function Applied(h: Held, rs: seq<Record>): Held {
    if rs == [] then h else Apply(Applied(h, rs[..|rs| - 1]), rs[|rs| - 1])
  }

  /** The furthest any run an answer lists has been folded. */
  function Stated(runs: seq<Summary>): nat {
    if runs == [] then 0
    else
      var before := Stated(runs[..|runs| - 1]);
      if runs[|runs| - 1].lastSeq > before then runs[|runs| - 1].lastSeq else before
  }

  function Listed(h: Held, runs: seq<Summary>): map<string, Run> {
    if runs == [] then map[]
    else
      var s := runs[|runs| - 1];
      var was := if s.run in h.runs && h.runs[s.run].lastSeq >= s.lastSeq then h.runs[s.run].lastSeq else s.lastSeq;
      Listed(h, runs[..|runs| - 1])[s.run := Run(was, false)]
  }

  /** Runs the answer leaves out are dropped, local ones at the second such answer. */
  function Adopted(h: Held, city: CityAnswer): Held {
    var listed := Listed(h, city.runs);
    var kept := map run | run in h.runs && run !in listed && h.runs[run].isLocal :: h.runs[run].(isLocal := false);
    var newer := Stated(city.runs) >= h.haltedAt;
    h.(runs := kept + listed,
       halted := if newer then city.halted else h.halted,
       haltedAt := if newer then Stated(city.runs) else h.haltedAt)
  }

  // ------------------------------------------------------------ sessions and policies converge

  /** The record opens the newest session of `room` seen in `rs`. */
  ghost predicate Newest(rs: seq<Record>, room: string, at: nat) {
    && at > 0
    && (exists i :: 0 <= i < |rs| && rs[i].said == SessionOpened(Some(room)) && rs[i].at == at)
    && (forall i :: 0 <= i < |rs| && rs[i].said == SessionOpened(Some(room)) ==> rs[i].at <= at)
  }

  lemma ApplySessions(h: Held, r: Record, room: string)
    ensures SessionAt(Apply(h, r), room) ==
            if r.said == SessionOpened(Some(room)) && r.at > SessionAt(h, room) then r.at else SessionAt(h, room)
    ensures room in Apply(h, r).sessions <==>
            room in h.sessions || (r.said == SessionOpened(Some(room)) && r.at > SessionAt(h, room))
  {}

  /** Every room is left at the newest line above zero that opened a session there. */
  lemma {:induction false} SessionsAreNewest(rs: seq<Record>, room: string)
    ensures var h := Applied(EMPTY, rs);
            if room in h.sessions then Newest(rs, room, h.sessions[room])
            else forall i :: 0 <= i < |rs| && rs[i].said == SessionOpened(Some(room)) ==> rs[i].at == 0
    decreases |rs|
  {
    hide Apply;
    if rs != [] {
      var n := |rs| - 1;
      var before := rs[..n];
      SessionsAreNewest(before, room);
      ApplySessions(Applied(EMPTY, before), rs[n], room);
      assert forall i :: 0 <= i < n ==> rs[i] == before[i];
    }
  }

  /** In any order, and however often each is repeated, the same records leave the
      same sessions. */
  lemma SessionsConverge(a: seq<Record>, b: seq<Record>)
    requires forall r :: r in a <==> r in b
    ensures Applied(EMPTY, a).sessions == Applied(EMPTY, b).sessions
  {
    hide Applied;
    var x, y := Applied(EMPTY, a).sessions, Applied(EMPTY, b).sessions;
    forall room ensures room in x <==> room in y
    ensures room in x && room in y ==> x[room] == y[room]
    {
      SessionsAreNewest(a, room);
      SessionsAreNewest(b, room);
      if room in x { NewestIn(a, b, room, x[room]); }
      if room in y { NewestIn(b, a, room, y[room]); }
    }
  }

  lemma NewestIn(a: seq<Record>, b: seq<Record>, room: string, at: nat)
    requires (forall r :: r in a <==> r in b) && Newest(a, room, at)
    ensures Newest(b, room, at)
  {
    var i :| 0 <= i < |a| && a[i].said == SessionOpened(Some(room)) && a[i].at == at;
    assert a[i] in b;
    forall j | 0 <= j < |b| && b[j].said == SessionOpened(Some(room)) ensures b[j].at <= at {
      assert b[j] in a;
    }
  }

  predicate Changes(r: Record, room: string) {
    r.said.PolicyChanged? && r.said.room == Some(room) && r.said.policy.Some?
  }

  predicate Gives(r: Record, room: string, p: Policy) {
    Changes(r, room) && r.at == p.at && r.said.policy == Some(p.policy)
  }

  ghost predicate NewestPolicy(rs: seq<Record>, room: string, p: Policy) {
    && p.at > 0
    && (exists i :: 0 <= i < |rs| && Gives(rs[i], room, p))
    && (forall i :: 0 <= i < |rs| && Changes(rs[i], room) ==> rs[i].at <= p.at)
  }

  lemma ApplyPolicies(h: Held, r: Record, room: string)
    ensures var now := Apply(h, r).policies;
            if Changes(r, room) && r.at > PolicyAt(h, room) then
              room in now && now[room] == Policy(r.at, r.said.policy.value)
            else (room in now <==> room in h.policies) && (room in now ==> now[room] == h.policies[room])
  {}

  lemma PolicyStays(before: seq<Record>, r: Record, room: string, p: Policy)
    requires NewestPolicy(before, room, p) && (Changes(r, room) ==> r.at <= p.at)
    ensures NewestPolicy(before + [r], room, p)
  {
    var i :| 0 <= i < |before| && Gives(before[i], room, p);
    assert (before + [r])[i] == before[i];
  }

  lemma PolicyMoves(before: seq<Record>, r: Record, room: string)
    requires Changes(r, room) && r.at > 0
    requires forall i :: 0 <= i < |before| && Changes(before[i], room) ==> before[i].at <= r.at
    ensures NewestPolicy(before + [r], room, Policy(r.at, r.said.policy.value))
  {
    assert (before + [r])[|before|] == r;
  }

  /** Every room is left at the newest policy a line above zero gave it. */
  lemma {:induction false} PoliciesAreNewest(rs: seq<Record>, room: string)
    ensures var h := Applied(EMPTY, rs);
            if room in h.policies then NewestPolicy(rs, room, h.policies[room])
            else forall i :: 0 <= i < |rs| && Changes(rs[i], room) ==> rs[i].at == 0
    decreases |rs|
  {
    hide Apply;
    if rs != [] {
      var n := |rs| - 1;
      var before := rs[..n];
      var was := Applied(EMPTY, before);
      assert rs == before + [rs[n]];
      PoliciesAreNewest(before, room);
      ApplyPolicies(was, rs[n], room);
      if Changes(rs[n], room) && rs[n].at > PolicyAt(was, room) {
        PolicyMoves(before, rs[n], room);
      } else if room in was.policies {
        PolicyStays(before, rs[n], room, was.policies[room]);
      }
    }
  }

  lemma NewestPolicyIn(a: seq<Record>, b: seq<Record>, room: string, p: Policy)
    requires (forall r :: r in a <==> r in b) && NewestPolicy(a, room, p)
    ensures NewestPolicy(b, room, p)
  {
    var i :| 0 <= i < |a| && Gives(a[i], room, p);
    assert a[i] in b;
    forall j | 0 <= j < |b| && Changes(b[j], room) ensures b[j].at <= p.at {
      assert b[j] in a;
    }
  }

  /** One ledger line has one reading. */
  ghost predicate OneLine(rs: seq<Record>) {
    forall i, j :: 0 <= i < |rs| && 0 <= j < |rs| && rs[i].at == rs[j].at ==> rs[i] == rs[j]
  }

  lemma PoliciesConverge(a: seq<Record>, b: seq<Record>)
    requires OneLine(a) && forall r :: r in a <==> r in b
    ensures Applied(EMPTY, a).policies == Applied(EMPTY, b).policies
  {
    hide Applied;
    var x, y := Applied(EMPTY, a).policies, Applied(EMPTY, b).policies;
    forall room ensures room in x <==> room in y
    ensures room in x && room in y ==> x[room] == y[room]
    {
      PoliciesAreNewest(a, room);
      PoliciesAreNewest(b, room);
      if room in x { NewestPolicyIn(a, b, room, x[room]); }
      if room in y { NewestPolicyIn(b, a, room, y[room]); }
    }
  }
}
