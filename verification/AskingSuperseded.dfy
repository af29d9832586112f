/** A run in which the answer cache calls an old answer fresh: a question that ran
    out of patience is asked again, and the first one's answer lands after the
    second one ran out too. */
module AskingSuperseded {
  import opened OrderedMaps
  import opened Staleness
  import opened AskingModel
  import opened AskingIndex
  import opened AskingFresh

  const TheKey := Key("\"city_view\"")
  const TheQuery := Query(CityView, TheKey)
  const TheNews := Record(5, OtherKind("run_started"), "r")

  function OnlySlot(stale: bool, staleAt: Mark, asOf: Option<nat>, inflight: bool, reported: bool,
                    value: Option<Answer>): OMap<Key, Slot> {
    OMap([TheKey], map[TheKey := Slot(value, reported, stale, staleAt, asOf, inflight, 0, false)])
  }

  const TheNames: map<Name, set<Key>> := map[CityView := {TheKey}]
  const TheParsed := map[TheKey := TheQuery]

  function AfterFirstAsk(): State {
    State(OnlySlot(false, At(-1), None, true, false, None), OMap([1], map[1 := Asked(TheKey, TheQuery, 15_000)]),
          Empty(), TheParsed, TheNames, Some(15_000), [])
  }

  function AfterFirstSilence(): State {
    State(OnlySlot(true, At(-1), None, false, true, None), Empty(), OMap([1], map[1 := TheKey]),
          TheParsed, TheNames, None, [TheKey])
  }

  function AfterNews(): State {
    AfterFirstSilence().(held := OnlySlot(true, At(5), None, false, true, None))
  }

  function AfterSecondAsk(): State {
    State(OnlySlot(false, At(-1), None, true, true, None), OMap([2], map[2 := Asked(TheKey, TheQuery, 30_000)]),
          OMap([1], map[1 := TheKey]), TheParsed, TheNames, Some(30_000), [TheKey])
  }

  function AfterSecondSilence(): State {
    State(OnlySlot(true, At(-1), None, false, true, None), Empty(), OMap([1, 2], map[1 := TheKey, 2 := TheKey]),
          TheParsed, TheNames, None, [TheKey])
  }

  lemma FirstAsk()
    ensures Ask(Initial, TheQuery, Went(1, 0)) == AfterFirstAsk()
  {
    var keys: seq<Key> := [];
    assert keys + [TheKey] == [TheKey];
    EarliestOne(1, Asked(TheKey, TheQuery, 15_000));
    var noKeys: set<Key> := {};
    assert noKeys + {TheKey} == {TheKey};
  }

  lemma FirstSilence()
    ensures Sweep(AfterFirstAsk(), 15_000) == AfterFirstSilence()
  {
    var from := AfterFirstAsk().(patience := None);
    assert [1][1..] == [];
    assert SweepAll(from, [1], 15_000) == SweepOne(from, 1, 15_000);
    assert Without([1], 1) == [];
    var at: map<AskId, Asked> := map[1 := Asked(TheKey, TheQuery, 15_000)];
    assert at - {1} == map[];
    var ids: seq<AskId> := [];
    assert ids + [1] == [1];
    var reports: seq<Key> := [];
    assert reports + [TheKey] == [TheKey];
  }

  lemma News()
    ensures Invalidate(AfterFirstSilence(), TheNews) == AfterNews()
  {
    assert CityView in TheNames && TheKey in TheNames[CityView];
    assert !ReachOf(CityView, TheNews.kind).Nothing?;
    assert IndexReaches(AfterFirstSilence(), TheKey, TheNews);
    assert Invalidate(AfterFirstSilence(), TheNews).held.at == AfterNews().held.at;
  }

  lemma EarliestOne(id: AskId, asked: Asked)
    ensures Earliest([id], map[id := asked]) == Some(asked.due)
  {
    assert Earliest([id][1..], map[id := asked]) == None;
  }

  lemma SecondFound()
    ensures SlotFor(AfterNews(), TheQuery) == AfterNews()
    ensures FoundSlot(AfterNews(), TheQuery) == Slot(None, true, true, At(5), None, false, 0, false)
  {
    assert Without([TheKey], TheKey) == [];
    var keys: seq<Key> := [];
    assert keys + [TheKey] == [TheKey];
    assert Reused(AfterNews(), TheKey).held.at == AfterNews().held.at;
  }

  lemma SecondAsk()
    ensures Ask(AfterNews(), TheQuery, Went(2, 15_000)) == AfterSecondAsk()
  {
    hide SlotFor, FoundSlot, Earliest;
    SecondFound();
    EarliestOne(2, Asked(TheKey, TheQuery, 30_000));
    var ids: seq<AskId> := [];
    assert ids + [2] == [2];
  }

  lemma SecondSilence()
    ensures Sweep(AfterSecondAsk(), 30_000) == AfterSecondSilence()
  {
    var from := AfterSecondAsk().(patience := None);
    assert [2][1..] == [];
    assert SweepAll(from, [2], 30_000) == SweepOne(from, 2, 30_000);
    assert Without([2], 2) == [];
    var at: map<AskId, Asked> := map[2 := Asked(TheKey, TheQuery, 30_000)];
    assert at - {2} == map[];
    assert [1] + [2] == [1, 2];
  }

  const TheLateAnswer := Answers(1, 3, Landed("old"))

  function TheRun(): seq<Event> {
    [Asks(TheQuery, Went(1, 0)), PatienceOver(15_000), Records(TheNews), Asks(TheQuery, Went(2, 15_000)),
     PatienceOver(30_000)]
  }

  function Prefix(n: nat): World
    requires n <= 5
  {
    RunOf(Beginning, TheRun()[..n])
  }

  lemma {:induction false} RunOfSteps(w: World, es: seq<Event>, e: Event)
    ensures RunOf(w, es + [e]) == Step(RunOf(w, es), e)
    decreases es
  {
    if es == [] {
      assert [e][1..] == [] && es + [e] == [e];
    } else {
      assert (es + [e])[1..] == es[1..] + [e];
      RunOfSteps(Step(w, es[0]), es[1..], e);
    }
  }

  lemma PrefixStep(n: nat)
    requires n < 5
    ensures Prefix(n + 1) == Step(Prefix(n), TheRun()[n])
  {
    assert TheRun()[..n + 1] == TheRun()[..n] + [TheRun()[n]];
    RunOfSteps(Beginning, TheRun()[..n], TheRun()[n]);
  }

  function StateAt(n: nat): State
    requires n <= 5
  {
    if n == 0 then Initial else if n == 1 then AfterFirstAsk() else if n == 2 then AfterFirstSilence()
    else if n == 3 then AfterNews() else if n == 4 then AfterSecondAsk() else AfterSecondSilence()
  }

  lemma NextState(n: nat)
    requires n < 5
    ensures Next(StateAt(n), TheRun()[n]) == StateAt(n + 1)
  {
    hide Ask, Sweep, Invalidate, AfterFirstAsk, AfterFirstSilence, AfterNews, AfterSecondAsk, AfterSecondSilence;
    if n == 0 { FirstAsk(); } else if n == 1 { FirstSilence(); } else if n == 2 { News(); }
    else if n == 3 { SecondAsk(); } else { SecondSilence(); }
  }

  /** Where the run has come to after `n` of its steps. */
  lemma {:induction false} RunComesTo(n: nat)
    requires n <= 5
    ensures Prefix(n).st == StateAt(n)
  {
    assert |TheRun()| == 5;
    hide *;
    if n == 0 {
      AtStart();
    } else {
      RunComesTo(n - 1);
      PrefixStep(n - 1);
      StepIsNext(Prefix(n - 1), TheRun()[n - 1]);
      NextState(n - 1);
    }
  }

  /** What it has been told of, and the questions it has asked. */
  lemma {:induction false} RunHears(n: nat)
    requires n <= 5
    ensures Prefix(n).heard == if n < 3 then {} else {TheNews}
    ensures Prefix(n).before.Keys == if n < 1 then {} else if n < 4 then {1} else {1, 2}
    ensures n > 0 ==> Prefix(n).before[1] == {}
  {
    hide *;
    if n == 0 {
      AtStart();
    } else {
      RunHears(n - 1);
      RunComesTo(n - 1);
      PrefixStep(n - 1);
      HistoryGrows(Prefix(n - 1), n - 1);
    }
  }

  lemma AtStart()
    ensures Prefix(0).st == StateAt(0) && Prefix(0).heard == {} && Prefix(0).before.Keys == {}
    ensures HonestRun(Beginning, TheRun()[..0])
  {
    assert TheRun()[..0] == [];
  }

  lemma HistoryGrows(w: World, n: nat)
    requires n < 5 && w.st == StateAt(n)
    ensures Step(w, TheRun()[n]).heard == if n == 2 then w.heard + {TheNews} else w.heard
    ensures Step(w, TheRun()[n]).before.Keys
         == w.before.Keys + (if n == 0 then {1} else if n == 3 then {2} else {})
    ensures n == 0 ==> Step(w, TheRun()[n]).before[1] == w.heard
    ensures n > 0 && 1 in w.before ==> 1 in Step(w, TheRun()[n]).before && Step(w, TheRun()[n]).before[1] == w.before[1]
  {
    hide SlotFor, Dispatch, Sweep, Invalidate;
  }

  lemma {:induction false} HonestRunSteps(w: World, es: seq<Event>, e: Event)
    requires HonestRun(w, es) && Honest(RunOf(w, es), e)
    ensures HonestRun(w, es + [e])
    decreases es
  {
    hide Honest;
    if es == [] {
      assert [e][1..] == [] && es + [e] == [e];
    } else {
      assert (es + [e])[1..] == es[1..] + [e];
      HonestRunSteps(Step(w, es[0]), es[1..], e);
    }
  }

  lemma PrefixIs(n: nat)
    requires n <= 5
    ensures |TheRun()| == 5 && Prefix(n) == RunOf(Beginning, TheRun()[..n])
    ensures n > 0 ==> TheRun()[..n] == TheRun()[..n - 1] + [TheRun()[n - 1]]
  {
    hide RunOf;
  }

  lemma {:induction false} PrefixHonest(n: nat)
    requires n <= 5
    ensures HonestRun(Beginning, TheRun()[..n])
  {
    PrefixIs(n);
    if n > 0 {
      PrefixIs(n - 1);
      hide *;
      PrefixHonest(n - 1);
      RunComesTo(n - 1);
      RunHears(n - 1);
      StepHonest(Prefix(n - 1), n - 1);
      HonestRunSteps(Beginning, TheRun()[..n - 1], TheRun()[n - 1]);
    } else {
      AtStart();
    }
  }

  lemma StepHonest(w: World, n: nat)
    requires n < 5 && w.st == StateAt(n)
    requires n == 0 ==> 1 !in w.before
    requires n == 3 ==> 2 !in w.before
    ensures Honest(w, TheRun()[n])
  {}

  lemma AnswerStep()
    ensures var out := Answered(AfterSecondSilence(), 1, 3, Landed("old"));
            TheKey in out.held.at && !out.held.at[TheKey].stale && !out.held.at[TheKey].inflight
            && out.held.at[TheKey].asOf == Some(3) && out.parsed == TheParsed
  {}

  lemma Misled(w: World)
    requires w.st == AfterSecondSilence() && w.heard == {TheNews}
    ensures !Fresh(Step(w, TheLateAnswer))
  {
    hide ReachOf, Answered, AfterSecondSilence, Touches;
    var v := Step(w, TheLateAnswer);
    StepIsNext(w, TheLateAnswer);
    AnswerStep();
    NewsTouches(v.st);
    assert TheNews in v.heard && !Reflects(v.st.held.at[TheKey], TheNews);
  }

  lemma LateIsTruthful(w: World)
    requires w.st == AfterSecondSilence() && 1 in w.before && w.before[1] == {}
    ensures Honest(w, TheLateAnswer)
  {}

  /** Asked, silent, told of record 5, asked again, silent again; then the first
      question's answer, read before that record, makes the slot fresh. The city and
      the link keep their word all the way. */
  lemma SupersededAnswerMisleads()
    ensures HonestRun(Beginning, TheRun() + [TheLateAnswer])
    ensures !Fresh(RunOf(Beginning, TheRun() + [TheLateAnswer]))
  {
    hide StateAt, Step, HonestRun, Honest, Fresh, AfterSecondSilence;
    assert TheRun()[..5] == TheRun();
    PrefixHonest(5);
    RunComesTo(5);
    RunHears(5);
    AtEnd();
    LateIsTruthful(Prefix(5));
    HonestRunSteps(Beginning, TheRun(), TheLateAnswer);
    RunOfSteps(Beginning, TheRun(), TheLateAnswer);
    Misled(Prefix(5));
  }

  lemma AtEnd()
    ensures StateAt(5) == AfterSecondSilence()
  {}

  lemma NewsTouches(st: State)
    requires st.parsed == TheParsed
    ensures Touches(st, TheKey, TheNews)
  {
    assert ReachOf(CityView, TheNews.kind) == Every;
  }
}
