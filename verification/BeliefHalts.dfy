/** The shut list of `client/src/core/belief.ts`: what words on scopes leave of it, in
    ledger order and in any other. */
module BeliefHalts {
  import opened BeliefFolds
  import opened OrderedMaps

  // ------------------------------------------------------------ the shut scopes

  /** The newest word on a scope in `rs`: whether it was halted. */
  function Word(rs: seq<Record>, scope: Scope): Option<bool> {
    if rs == [] then None
    else
      var said := rs[|rs| - 1].said;
      if said.CityHalted? && said.scope == Some(scope) && said.shut.Some? then said.shut
      else Word(rs[..|rs| - 1], scope)
  }

  ghost predicate InOrder(rs: seq<Record>, after: nat) {
    && (forall i :: 0 <= i < |rs| ==> rs[i].at > after)
    && (forall i, j :: 0 <= i < j < |rs| ==> rs[i].at < rs[j].at)
  }

  ghost predicate EachOnce(scopes: seq<Scope>) {
    forall i, j :: 0 <= i < j < |scopes| ==> scopes[i] != scopes[j]
  }

  lemma {:induction false} DroppedOnce(scopes: seq<Scope>, scope: Scope)
    requires EachOnce(scopes)
    ensures EachOnce(Dropped(scopes, scope))
  {
    if scopes != [] {
      var rest := Dropped(scopes[1..], scope);
      DroppedOnce(scopes[1..], scope);
      forall j | 0 <= j < |rest| ensures rest[j] != scopes[0] {
        assert rest[j] in scopes[1..];
      }
    }
  }

  lemma ApplyHalted(h: Held, r: Record, scope: Scope)
    ensures r.said.CityHalted? && r.said.scope.Some? && r.said.shut.Some? && r.at > h.haltedAt ==>
      && Apply(h, r).haltedAt == r.at
      && (scope in Apply(h, r).halted <==> if r.said.scope == Some(scope) then r.said.shut.value else scope in h.halted)
    ensures !(r.said.CityHalted? && r.said.scope.Some? && r.said.shut.Some? && r.at > h.haltedAt) ==>
      Apply(h, r).haltedAt == h.haltedAt && Apply(h, r).halted == h.halted
  {}

  lemma ApplyOnce(h: Held, r: Record)
    requires EachOnce(h.halted)
    ensures EachOnce(Apply(h, r).halted)
  {
    if r.said.CityHalted? && r.said.scope.Some? && r.said.shut.Some? && r.at > h.haltedAt {
      DroppedOnce(h.halted, r.said.scope.value);
      var without := Dropped(h.halted, r.said.scope.value);
      assert forall i :: 0 <= i < |without| ==> without[i] in without;
    }
  }

  // ------------------------------------------------------------ the shut scopes in any order

  /** The record is a readable word on whether a scope is shut. */
  predicate Halts(r: Record) {
    r.said.CityHalted? && r.said.scope.Some? && r.said.shut.Some?
  }

  predicate Speaks(r: Record, scope: Scope) {
    Halts(r) && r.said.scope == Some(scope)
  }

  /** The newest word on a scope past what the list was current to. */
  ghost predicate IsNewest(rs: seq<Record>, after: nat, scope: Scope, i: int) {
    && 0 <= i < |rs| && Speaks(rs[i], scope) && rs[i].at > after
    && (forall j :: 0 <= j < |rs| && Speaks(rs[j], scope) ==> rs[j].at <= rs[i].at)
  }

  /** It is folded before any later word on any scope. */
  ghost predicate Timely(rs: seq<Record>, after: nat, scope: Scope, i: int) {
    IsNewest(rs, after, scope, i) && forall j :: 0 <= j < i && Halts(rs[j]) ==> rs[j].at <= rs[i].at
  }

  ghost predicate InTime(rs: seq<Record>, after: nat, scope: Scope) {
    (exists i :: IsNewest(rs, after, scope, i)) ==> exists i :: Timely(rs, after, scope, i)
  }

  /** What the list should hold: the newest word, or what it held where none is newer. */
  ghost predicate ShouldHold(h: Held, rs: seq<Record>, scope: Scope) {
    if exists i :: IsNewest(rs, h.haltedAt, scope, i)
    then exists i :: IsNewest(rs, h.haltedAt, scope, i) && rs[i].said.shut.value
    else scope in h.halted
  }

  /** One line of the ledger speaks of one scope. */
  ghost predicate OneScope(rs: seq<Record>) {
    forall i, j :: 0 <= i < |rs| && 0 <= j < |rs| && Halts(rs[i]) && Halts(rs[j]) && rs[i].at == rs[j].at ==>
      rs[i].said.scope == rs[j].said.scope
  }

  /** The same lines, saying of each scope what `shut` says at their position. */
  function Reworded(rs: seq<Record>, shut: set<nat>): (out: seq<Record>)
    ensures |out| == |rs|
    ensures forall i :: 0 <= i < |rs| ==> out[i] == Worded(rs[i], shut)
  {
    if rs == [] then [] else Reworded(rs[..|rs| - 1], shut) + [Worded(rs[|rs| - 1], shut)]
  }

  function Worded(r: Record, shut: set<nat>): Record {
    if Halts(r) then r.(said := CityHalted(r.said.scope, Some(r.at in shut))) else r
  }

  /** `haltedAt` is the newest word folded, or where it began. */
  lemma {:induction false} CurrentTo(h: Held, rs: seq<Record>)
    ensures var at := Applied(h, rs).haltedAt;
            && h.haltedAt <= at && (forall i :: 0 <= i < |rs| && Halts(rs[i]) ==> rs[i].at <= at)
            && (at == h.haltedAt || exists i :: 0 <= i < |rs| && Halts(rs[i]) && rs[i].at == at)
    decreases |rs|
  {
    hide Apply;
    if rs != [] {
      var n := |rs| - 1;
      var before := rs[..n];
      CurrentTo(h, before);
      ApplyHalted(Applied(h, before), rs[n], City);
      assert forall i :: 0 <= i < n ==> rs[i] == before[i];
    }
  }

  lemma {:induction false} Unspoken(h: Held, rs: seq<Record>, scope: Scope)
    requires forall i :: 0 <= i < |rs| && Speaks(rs[i], scope) ==> rs[i].at <= h.haltedAt
    ensures scope in Applied(h, rs).halted <==> scope in h.halted
    decreases |rs|
  {
    hide Apply;
    if rs != [] {
      var n := |rs| - 1;
      Unspoken(h, rs[..n], scope);
      CurrentTo(h, rs[..n]);
      ApplyHalted(Applied(h, rs[..n]), rs[n], scope);
    }
  }

  /** From where a timely word is folded on, the list holds what it says. */
  lemma {:induction false} TimelyHolds(h: Held, rs: seq<Record>, shut: set<nat>, scope: Scope, i: int)
    requires Timely(rs, h.haltedAt, scope, i) && OneScope(rs)
    requires forall j :: 0 <= j < |rs| ==> rs[j] == Worded(rs[j], shut)
    ensures scope in Applied(h, rs).halted <==> rs[i].at in shut
    decreases |rs|
  {
    hide Apply;
    var n := |rs| - 1;
    var before := rs[..n];
    CurrentTo(h, before);
    ApplyHalted(Applied(h, before), rs[n], scope);
    if i < n {
      assert Timely(before, h.haltedAt, scope, i);
      TimelyHolds(h, before, shut, scope, i);
      assert before[i].at <= Applied(h, before).haltedAt;
    } else if Applied(h, before).haltedAt == rs[n].at {
      var j :| 0 <= j < n && Halts(before[j]) && before[j].at == rs[n].at;
      assert rs[j].said.scope == rs[n].said.scope;
      assert Timely(before, h.haltedAt, scope, j);
      TimelyHolds(h, before, shut, scope, j);
    }
  }

  /** A later word on some scope comes before index `i`. */
  ghost predicate Overtaken(rs: seq<Record>, i: int, at: nat) {
    exists j :: 0 <= j < i && j < |rs| && Halts(rs[j]) && rs[j].at > at
  }

  /** A word folded after a later one changes nothing, whatever it says. */
  lemma {:induction false} LateIsUnheard(h: Held, rs: seq<Record>, at: nat, a: set<nat>, b: set<nat>)
    requires forall p :: p != at ==> (p in a <==> p in b)
    requires forall i :: 0 <= i < |rs| && Halts(rs[i]) && rs[i].at == at ==> Overtaken(rs, i, at)
    ensures Applied(h, Reworded(rs, a)).halted == Applied(h, Reworded(rs, b)).halted
    ensures Applied(h, Reworded(rs, a)).haltedAt == Applied(h, Reworded(rs, b)).haltedAt
    decreases |rs|
  {
    if rs != [] {
      hide Apply, Overtaken, Halts;
      var n := |rs| - 1;
      forall i | 0 <= i < n && Halts(rs[i]) && rs[i].at == at ensures Overtaken(rs[..n], i, at) {
        OvertakenBefore(rs, i, at);
      }
      LateIsUnheard(h, rs[..n], at, a, b);
      var x, y := Reworded(rs[..n], a), Reworded(rs[..n], b);
      LastReworded(rs, a);
      LastReworded(rs, b);
      if Halts(rs[n]) && rs[n].at == at {
        OvertakenUnheard(h, rs, at, a);
        OvertakenUnheard(h, rs, at, b);
      } else {
        SameWorded(rs[n], at, a, b);
        SameWord(Applied(h, x), Applied(h, y), Worded(rs[n], a));
      }
    }
  }

  lemma OvertakenBefore(rs: seq<Record>, i: int, at: nat)
    requires 0 <= i < |rs| && Overtaken(rs, i, at)
    ensures Overtaken(rs[..|rs| - 1], i, at)
  {
    var j :| 0 <= j < i && j < |rs| && Halts(rs[j]) && rs[j].at > at;
    assert rs[..|rs| - 1][j] == rs[j];
  }

  lemma LastReworded(rs: seq<Record>, shut: set<nat>)
    requires rs != []
    ensures var n := |rs| - 1;
            Reworded(rs, shut)[..n] == Reworded(rs[..n], shut) && Reworded(rs, shut)[n] == Worded(rs[n], shut)
  {}

  lemma SameWorded(r: Record, at: nat, a: set<nat>, b: set<nat>)
    requires (forall p :: p != at ==> (p in a <==> p in b)) && !(Halts(r) && r.at == at)
    ensures Worded(r, a) == Worded(r, b)
  {}

  lemma OvertakenUnheard(h: Held, rs: seq<Record>, at: nat, shut: set<nat>)
    requires rs != [] && Halts(rs[|rs| - 1]) && rs[|rs| - 1].at == at && Overtaken(rs, |rs| - 1, at)
    ensures var before := Applied(h, Reworded(rs[..|rs| - 1], shut));
            Applied(h, Reworded(rs, shut)) == before
  {
    hide Apply;
    var n := |rs| - 1;
    var out := Reworded(rs[..n], shut);
    LastReworded(rs, shut);
    var j :| 0 <= j < n && j < |rs| && Halts(rs[j]) && rs[j].at > at;
    assert out[j] == Worded(rs[..n][j], shut);
    CurrentTo(h, out);
    Unmoved(Applied(h, out), Worded(rs[n], shut));
  }

  lemma Unmoved(h: Held, r: Record)
    requires Halts(r) && r.at <= h.haltedAt
    ensures Apply(h, r) == h
  {}

  lemma WordIs(h: Held, r: Record)
    ensures Halts(r) && r.at > h.haltedAt ==> Apply(h, r) == Shut(h, r.at, r.said.scope.value, r.said.shut.value)
    ensures !Halts(r) || r.at <= h.haltedAt ==> Apply(h, r).halted == h.halted && Apply(h, r).haltedAt == h.haltedAt
  {}

  lemma SameWord(g: Held, h: Held, r: Record)
    requires g.halted == h.halted && g.haltedAt == h.haltedAt
    ensures Apply(g, r).halted == Apply(h, r).halted && Apply(g, r).haltedAt == Apply(h, r).haltedAt
  {
    hide Apply, Dropped;
    WordIs(g, r);
    WordIs(h, r);
  }

  /** In whatever order the lines of a ledger come, however often each, and whatever they
      say: the list ends holding a scope exactly when its newest word says so, if and only
      if that word is folded before any later word on any scope. */
  lemma HaltedRightIffInTime(h: Held, rs: seq<Record>, scope: Scope)
    requires OneScope(rs)
    ensures InTime(rs, h.haltedAt, scope) <==>
            forall shut: set<nat> :: HoldsRight(h, Reworded(rs, shut), scope)
  {
    if InTime(rs, h.haltedAt, scope) {
      forall shut: set<nat> ensures HoldsRight(h, Reworded(rs, shut), scope) {
        InTimeIsRight(h, Reworded(rs, shut), shut, scope) by { RewordedOrder(rs, h.haltedAt, shut, scope); }
      }
    } else {
      var shut := LateIsWrong(h, rs, scope);
    }
  }

  ghost predicate HoldsRight(h: Held, rs: seq<Record>, scope: Scope) {
    scope in Applied(h, rs).halted <==> ShouldHold(h, rs, scope)
  }

  /** What the lines say does not change their order. */
  lemma RewordedOrder(rs: seq<Record>, after: nat, shut: set<nat>, scope: Scope)
    ensures var out := Reworded(rs, shut);
            && (OneScope(rs) ==> OneScope(out))
            && (forall i :: IsNewest(out, after, scope, i) <==> IsNewest(rs, after, scope, i))
            && (InTime(out, after, scope) <==> InTime(rs, after, scope))
            && (forall j :: 0 <= j < |out| ==> out[j] == Worded(out[j], shut))
  {
    var out := Reworded(rs, shut);
    forall j | 0 <= j < |rs|
      ensures out[j].at == rs[j].at && (Halts(out[j]) <==> Halts(rs[j])) && out[j] == Worded(out[j], shut)
      ensures Halts(rs[j]) ==> out[j].said.scope == rs[j].said.scope
    {
      assert out[j] == Worded(rs[j], shut);
    }
    assert forall i :: Timely(out, after, scope, i) <==> Timely(rs, after, scope, i);
  }

  lemma InTimeIsRight(h: Held, rs: seq<Record>, shut: set<nat>, scope: Scope)
    requires InTime(rs, h.haltedAt, scope) && OneScope(rs)
    requires forall j :: 0 <= j < |rs| ==> rs[j] == Worded(rs[j], shut)
    ensures HoldsRight(h, rs, scope)
  {
    hide Applied;
    if i :| IsNewest(rs, h.haltedAt, scope, i) {
      var k :| Timely(rs, h.haltedAt, scope, k);
      TimelyHolds(h, rs, shut, scope, k);
      assert forall j :: IsNewest(rs, h.haltedAt, scope, j) ==> rs[j].at == rs[k].at && (rs[j].said.shut.value <==> rs[j].at in shut);
    } else {
      NewestExists(rs, h.haltedAt, scope);
      Unspoken(h, rs, scope);
    }
  }

  /** Where any word is newer, one is the newest. */
  lemma {:induction false} NewestExists(rs: seq<Record>, after: nat, scope: Scope)
    ensures (exists i :: 0 <= i < |rs| && Speaks(rs[i], scope) && rs[i].at > after)
            ==> exists i :: IsNewest(rs, after, scope, i)
    decreases |rs|
  {
    if rs != [] {
      var n := |rs| - 1;
      var before := rs[..n];
      NewestExists(before, after, scope);
      if i :| IsNewest(before, after, scope, i) {
        assert IsNewest(rs, after, scope, if Speaks(rs[n], scope) && rs[n].at > before[i].at then n else i);
      } else if Speaks(rs[n], scope) && rs[n].at > after {
        assert forall j :: 0 <= j < n && Speaks(rs[j], scope) ==> before[j] == rs[j] && before[j].at <= after;
        assert IsNewest(rs, after, scope, n);
      }
    }
  }

  lemma LateIsOvertaken(rs: seq<Record>, after: nat, scope: Scope, i: int, k: int)
    requires OneScope(rs) && !InTime(rs, after, scope) && IsNewest(rs, after, scope, i)
    requires 0 <= k < |rs| && Halts(rs[k]) && rs[k].at == rs[i].at
    ensures Overtaken(rs, k, rs[i].at)
  {
    assert IsNewest(rs, after, scope, k) && !Timely(rs, after, scope, k);
  }

  lemma LateIsSame(h: Held, rs: seq<Record>, scope: Scope, i: int)
    requires OneScope(rs) && !InTime(rs, h.haltedAt, scope) && IsNewest(rs, h.haltedAt, scope, i)
    ensures Applied(h, Reworded(rs, {rs[i].at})).halted == Applied(h, Reworded(rs, {})).halted
  {
    forall k | 0 <= k < |rs| && Halts(rs[k]) && rs[k].at == rs[i].at ensures Overtaken(rs, k, rs[i].at) {
      LateIsOvertaken(rs, h.haltedAt, scope, i, k);
    }
    hide *;
    LateIsUnheard(h, rs, rs[i].at, {rs[i].at}, {});
  }

  /** A newest word that comes late is lost: the list is the same if it said the other. */
  lemma LateIsWrong(h: Held, rs: seq<Record>, scope: Scope) returns (shut: set<nat>)
    requires OneScope(rs) && !InTime(rs, h.haltedAt, scope)
    ensures !HoldsRight(h, Reworded(rs, shut), scope)
  {
    var i :| IsNewest(rs, h.haltedAt, scope, i);
    assert 0 <= i < |rs|;
    hide ShouldHold, InTime, OneScope, IsNewest, Applied, Reworded;
    LateIsSame(h, rs, scope, i);
    NewestSays(h, rs, {rs[i].at}, scope, i);
    NewestSays(h, rs, {}, scope, i);
    shut := if HoldsRight(h, Reworded(rs, {}), scope) then {rs[i].at} else {};
  }

  lemma NewestSays(h: Held, rs: seq<Record>, shut: set<nat>, scope: Scope, i: int)
    requires OneScope(rs) && IsNewest(rs, h.haltedAt, scope, i)
    ensures ShouldHold(h, Reworded(rs, shut), scope) <==> rs[i].at in shut
  {
    var out := Reworded(rs, shut);
    RewordedOrder(rs, h.haltedAt, shut, scope);
    assert IsNewest(out, h.haltedAt, scope, i);
    assert forall j :: IsNewest(out, h.haltedAt, scope, j) ==> out[j].at == rs[i].at;
  }

  /** Such an order: a word on one scope folded as it streams, then an older one on
      another from a page of a gap. The older scope stays off the list for good. */
  lemma GapPageIsLost()
    ensures var rs := [Record(60, None, CityHalted(Some(Building("b")), Some(true))),
                       Record(50, None, CityHalted(Some(Building("a")), Some(true)))];
            && IsNewest(rs, 0, Building("a"), 1) && !InTime(rs, 0, Building("a"))
            && Applied(EMPTY, rs).halted == [Building("b")]
  {
    var first := Record(60, None, CityHalted(Some(Building("b")), Some(true)));
    var second := Record(50, None, CityHalted(Some(Building("a")), Some(true)));
    var rs := [first, second];
    assert rs[..1] == [first];
    var none: seq<Record> := [];
    assert Applied(EMPTY, none) == EMPTY && [first][..0] == none;
    var h := Applied(EMPTY, [first]);
    assert h == Apply(Applied(EMPTY, [first][..0]), first) == Apply(EMPTY, first);
    assert h.halted == [Building("b")] && h.haltedAt == 60;
    assert Applied(EMPTY, rs) == Apply(h, second);
    assert IsNewest(rs, 0, Building("a"), 1);
    assert forall i :: IsNewest(rs, 0, Building("a"), i) ==> i == 1;
    assert Halts(rs[0]) && rs[0].at > rs[1].at;
  }

  /** Whatever arrives, in any order, a scope is listed at most once. */
  lemma {:induction false} HaltedOnce(h: Held, rs: seq<Record>)
    requires EachOnce(h.halted)
    ensures EachOnce(Applied(h, rs).halted)
    decreases |rs|
  {
    if rs != [] {
      HaltedOnce(h, rs[..|rs| - 1]);
      ApplyOnce(Applied(h, rs[..|rs| - 1]), rs[|rs| - 1]);
    }
  }

  lemma {:induction false} WordJoins(a: seq<Record>, b: seq<Record>, scope: Scope)
    ensures Word(a + b, scope) == if Word(b, scope).Some? then Word(b, scope) else Word(a, scope)
    decreases |b|
  {
    if b == [] {
      assert a + b == a;
    } else {
      assert (a + b)[..|a + b| - 1] == a + b[..|b| - 1];
      WordJoins(a, b[..|b| - 1], scope);
    }
  }

  /** The scopes halted once the lines of a ledger up to somewhere are said. */
  ghost predicate TrulyShut(ledger: seq<Record>, scope: Scope) {
    Word(ledger, scope) == Some(true)
  }

  lemma {:induction false} WordIsNewest(ledger: seq<Record>, after: nat, scope: Scope) returns (i: int)
    requires InOrder(ledger, after)
    ensures Word(ledger, scope).None? ==> forall j :: 0 <= j < |ledger| ==> !Speaks(ledger[j], scope)
    ensures Word(ledger, scope).Some? ==> IsNewest(ledger, after, scope, i) && ledger[i].said.shut == Word(ledger, scope)
    decreases |ledger|
  {
    i := -1;
    if ledger != [] {
      var n := |ledger| - 1;
      if Speaks(ledger[n], scope) {
        i := n;
      } else {
        i := WordIsNewest(ledger[..n], after, scope);
      }
    }
  }

  /** The lines of a stretch of ledger, come in any order and however often: what the
      list should hold is what the ledger says. */
  lemma ShouldHoldIsWord(h: Held, arrived: seq<Record>, ledger: seq<Record>, scope: Scope)
    requires InOrder(ledger, h.haltedAt) && forall r :: r in arrived <==> r in ledger
    ensures ShouldHold(h, arrived, scope) <==>
            if Word(ledger, scope).Some? then Word(ledger, scope).value else scope in h.halted
  {
    var i := WordIsNewest(ledger, h.haltedAt, scope);
    if Word(ledger, scope).Some? {
      assert ledger[i] in arrived;
      var k :| 0 <= k < |arrived| && arrived[k] == ledger[i];
      NewestOf(arrived, ledger, h.haltedAt, scope, i, k);
      forall j | IsNewest(arrived, h.haltedAt, scope, j) ensures arrived[j] == ledger[i] {
        assert arrived[j] in ledger;
        var m :| 0 <= m < |ledger| && ledger[m] == arrived[j];
        assert ledger[m].at == ledger[i].at;
      }
    } else {
      NoneSpeaks(arrived, ledger, scope);
    }
  }

  lemma NoneSpeaks(arrived: seq<Record>, ledger: seq<Record>, scope: Scope)
    requires forall j :: 0 <= j < |ledger| ==> !Speaks(ledger[j], scope)
    requires forall r :: r in arrived ==> r in ledger
    ensures forall j :: 0 <= j < |arrived| ==> !Speaks(arrived[j], scope)
  {
    forall j | 0 <= j < |arrived| ensures !Speaks(arrived[j], scope) { assert arrived[j] in ledger; }
  }

  lemma NewestOf(arrived: seq<Record>, ledger: seq<Record>, after: nat, scope: Scope, i: int, k: int)
    requires IsNewest(ledger, after, scope, i) && 0 <= k < |arrived| && arrived[k] == ledger[i]
    requires forall r :: r in arrived <==> r in ledger
    ensures IsNewest(arrived, after, scope, k)
  {
    forall j | 0 <= j < |arrived| && Speaks(arrived[j], scope) ensures arrived[j].at <= arrived[k].at {
      assert arrived[j] in ledger;
    }
  }

  function ShutAt(ledger: seq<Record>): set<nat> {
    set r | r in ledger && Halts(r) && r.said.shut.value :: r.at
  }

  /** Lines of one ledger have one reading each. */
  lemma OneReading(arrived: seq<Record>, ledger: seq<Record>, after: nat)
    requires InOrder(ledger, after) && forall r :: r in arrived ==> r in ledger
    ensures OneScope(arrived) && forall j :: 0 <= j < |arrived| ==> arrived[j] == Worded(arrived[j], ShutAt(ledger))
  {
    forall a, b | a in ledger && b in ledger && a.at == b.at ensures a == b {
      var i :| 0 <= i < |ledger| && ledger[i] == a;
      var j :| 0 <= j < |ledger| && ledger[j] == b;
    }
    forall j | 0 <= j < |arrived| ensures arrived[j] == Worded(arrived[j], ShutAt(ledger)) {
      assert arrived[j] in ledger;
      if Halts(arrived[j]) && arrived[j].at in ShutAt(ledger) {
        var r :| r in ledger && Halts(r) && r.said.shut.value && r.at == arrived[j].at;
        assert r == arrived[j];
      }
    }
  }

  /** In ledger order every word comes in time. */
  lemma {:induction false} OrderIsInTime(ledger: seq<Record>, after: nat, scope: Scope)
    requires InOrder(ledger, after)
    ensures InTime(ledger, after, scope)
  {
    forall i | IsNewest(ledger, after, scope, i) ensures Timely(ledger, after, scope, i) {}
  }

  /** So records in ledger order leave the list holding a scope exactly when the newest
      word on it says halted, or none was said and it was held before. */
  lemma HaltedIsTheNewestWord(h: Held, rs: seq<Record>, scope: Scope)
    requires InOrder(rs, h.haltedAt)
    ensures var now := Applied(h, rs);
            && (scope in now.halted <==> if Word(rs, scope).Some? then Word(rs, scope).value else scope in h.halted)
            && h.haltedAt <= now.haltedAt <= (if rs == [] then h.haltedAt else rs[|rs| - 1].at)
  {
    OrderIsInTime(rs, h.haltedAt, scope);
    OneReading(rs, rs, h.haltedAt);
    InTimeIsRight(h, rs, ShutAt(rs), scope);
    ShouldHoldIsWord(h, rs, rs, scope);
    CurrentTo(h, rs);
  }

  /** An answer read at a later point of the ledger than it can claim by still
      converges: once the lines after what it claimed are folded, past the point it was
      read at, in any order in which the scope's newest word comes in time, the list
      holds the scope exactly when it is shut. */
  lemma AdoptedConverges(h: Held, city: CityAnswer, upTo: seq<Record>, between: seq<Record>, on: seq<Record>,
                         arrived: seq<Record>, scope: Scope)
    requires Stated(city.runs) >= h.haltedAt
    requires forall s :: s in city.halted <==> TrulyShut(upTo + between, s)
    requires InOrder(between + on, Stated(city.runs)) && forall r :: r in arrived <==> r in between + on
    requires InTime(arrived, Stated(city.runs), scope)
    ensures scope in Applied(Adopted(h, city), arrived).halted <==> TrulyShut(upTo + (between + on), scope)
  {
    var held := Adopted(h, city);
    OneReading(arrived, between + on, held.haltedAt);
    InTimeIsRight(held, arrived, ShutAt(between + on), scope);
    ShouldHoldIsWord(held, arrived, between + on, scope);
    WordJoins(upTo, between, scope);
    WordJoins(upTo, between + on, scope);
    WordJoins(between, on, scope);
  }

  /** An answer that cannot claim to be newer leaves the list as the page folded it. */
  lemma AdoptNeverGoesBack(h: Held, city: CityAnswer)
    ensures Adopted(h, city).haltedAt >= h.haltedAt
    ensures Stated(city.runs) < h.haltedAt ==> Adopted(h, city).halted == h.halted
    ensures Adopted(h, city).sessions == h.sessions && Adopted(h, city).policies == h.policies
  {}
}
