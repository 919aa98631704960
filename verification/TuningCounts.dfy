/** How often the events of a tuning run are issued, and how often each experiment is run. */
module TuningCounts {
  import opened Sequences
  import opened TuningEvents

  /** The pools of some search steps, in order; `Flat` of them are their experiments. */
  function PoolsOf(steps: TuningStep): seq<seq<Experiment>> {
    if steps == [] then [] else PoolsOf(Init(steps)) + Last(steps).pools
  }

  /** How often an analysis is required. */
  function Analyses(steps: TuningStep): nat {
    if steps == [] then 0 else Analyses(Init(steps)) + if Last(steps).analysisRequired then 1 else 0
  }

  /** How often each experiment has to be run. */
  function RunsOf(es: seq<Experiment>): seq<nat> {
    if es == [] then [] else RunsOf(Init(es)) + [Last(es).repeats + 1]
  }

  function Sum(ns: seq<nat>): nat {
    if ns == [] then 0 else Sum(Init(ns)) + Last(ns)
  }

  /** After a definition a new experiment is counted, and every run counts for the experiment defined last. */
  function Counted(runs: seq<nat>, event: Event): seq<nat> {
    if event == DefineExperiment then runs + [0]
    else if event == RunPhaseExperiments && runs != [] then Init(runs) + [Last(runs) + 1]
    else runs
  }

  /** How often each experiment is run, after those in `before`. */
  function RunsIn(before: seq<nat>, events: seq<Event>): seq<nat> {
    if events == [] then before else Counted(RunsIn(before, Init(events)), Last(events))
  }

  lemma {:induction false} RunsInAppend(before: seq<nat>, a: seq<Event>, b: seq<Event>)
    ensures RunsIn(before, a + b) == RunsIn(RunsIn(before, a), b)
  {
    hide Counted;
    if b == [] {
      assert a + b == a;
    } else {
      RunsInAppend(before, a, Init(b));
      assert Init(a + b) == a + Init(b);
    }
  }

  lemma RunsInOne(before: seq<nat>, event: Event)
    ensures RunsIn(before, [event]) == Counted(before, event)
  {
    assert Init([event]) == [];
  }

  lemma {:induction false} RunsOfAppend(a: seq<Experiment>, b: seq<Experiment>)
    ensures RunsOf(a + b) == RunsOf(a) + RunsOf(b) && Sum(RunsOf(a + b)) == Sum(RunsOf(a)) + Sum(RunsOf(b))
  {
    if b == [] {
      assert a + b == a;
    } else {
      assert Init(a + b) == a + Init(b) && Last(a + b) == Last(b);
      assert RunsOf(a + b) == RunsOf(a + Init(b)) + [Last(b).repeats + 1];
      assert RunsOf(b) == RunsOf(Init(b)) + [Last(b).repeats + 1];
      hide RunsOf, Sum;
      RunsOfAppend(a, Init(b));
      SumNext(RunsOf(a) + RunsOf(Init(b)), Last(b).repeats + 1);
      SumNext(RunsOf(Init(b)), Last(b).repeats + 1);
      Regroup(RunsOf(a), RunsOf(Init(b)), [Last(b).repeats + 1]);
    }
  }

  lemma SumNext(ns: seq<nat>, n: nat)
    ensures Sum(ns + [n]) == Sum(ns) + n
  {
    assert Init(ns + [n]) == ns;
  }

  lemma {:induction false} PoolsOfAppend(a: TuningStep, b: TuningStep)
    ensures PoolsOf(a + b) == PoolsOf(a) + PoolsOf(b) && Analyses(a + b) == Analyses(a) + Analyses(b)
  {
    if b == [] {
      assert a + b == a;
    } else {
      PoolsOfAppend(a, Init(b));
      assert Init(a + b) == a + Init(b);
      Regroup(PoolsOf(a), PoolsOf(Init(b)), Last(b).pools);
    }
  }

  /** What a part of a run consists of. */
  datatype Tally = Tally(tuningSteps: nat, searchSteps: nat, analyses: nat, pools: nat, experiments: seq<Experiment>)

  const NOTHING := Tally(0, 0, 0, 0, [])

  function Plus(a: Tally, b: Tally): Tally {
    Tally(a.tuningSteps + b.tuningSteps, a.searchSteps + b.searchSteps, a.analyses + b.analyses, a.pools + b.pools,
          a.experiments + b.experiments)
  }

  /** How often an event is issued in a part of a run. */
  function Times(t: Tally, event: Event): nat {
    match event
    case StartTuningStep => t.tuningSteps
    case FinishTuningStep => t.tuningSteps
    case CreateScenarios => t.searchSteps
    case PerformAnalysis => t.analyses
    case PrepareScenarios => t.pools
    case DefineExperiment => |t.experiments|
    case ConsiderRestart => |t.experiments|
    case RunPhaseExperiments => Sum(RunsOf(t.experiments))
    case _ => 0
  }

  lemma TimesPlus(a: Tally, b: Tally, event: Event)
    ensures Times(Plus(a, b), event) == Times(a, event) + Times(b, event)
  {
    RunsOfAppend(a.experiments, b.experiments);
    hide RunsOf, Sum;
  }

  /** Every experiment of this part, in order, is run as often as it has to be. */
  ghost predicate RunsAll(events: seq<Event>, t: Tally) {
    forall before :: RunsIn(before, events) == before + RunsOf(t.experiments)
  }

  lemma RunsAllAppend(a: seq<Event>, s: Tally, b: seq<Event>, t: Tally)
    requires RunsAll(a, s) && RunsAll(b, t)
    ensures RunsAll(a + b, Plus(s, t))
  {
    RunsOfAppend(s.experiments, t.experiments);
    hide RunsIn, RunsOf, Sum;
    forall before
      ensures RunsIn(before, a + b) == before + RunsOf(s.experiments + t.experiments)
    {
      RunsInAppend(before, a, b);
      Regroup(before, RunsOf(s.experiments), RunsOf(t.experiments));
    }
  }

  /** The events of a tuning step, of which there may be parts only, are those of `t`. */
  ghost predicate Tells(events: seq<Event>, t: Tally) {
    RunsAll(events, t) && forall e: Event :: multiset(events)[e] == Times(t, e)
  }

  lemma TellsAppend(a: seq<Event>, s: Tally, b: seq<Event>, t: Tally)
    requires Tells(a, s) && Tells(b, t)
    ensures Tells(a + b, Plus(s, t))
  {
    hide RunsAll, Plus, Times;
    RunsAllAppend(a, s, b, t);
    assert multiset(a + b) == multiset(a) + multiset(b);
    forall e: Event
      ensures multiset(a + b)[e] == Times(Plus(s, t), e)
    {
      TimesPlus(s, t, e);
    }
  }

  lemma NothingTells()
    ensures Tells([], NOTHING)
    ensures ExperimentsEvents([]) == PoolsEvents([]) == SearchStepsEvents([]) == TuningStepsEvents([]) == []
    ensures StepsTally([]) == NOTHING && Flat<SearchStep>([]) == [] && Flat<Experiment>([]) == []
  {
  }

  lemma EventTells(e: Event)
    requires e == CreateScenarios || e == PerformAnalysis || e == PrepareScenarios
    ensures e == CreateScenarios ==> Tells([e], NOTHING.(searchSteps := 1))
    ensures e == PerformAnalysis ==> Tells([e], NOTHING.(analyses := 1))
    ensures e == PrepareScenarios ==> Tells([e], NOTHING.(pools := 1))
  {
    QuietEvent(e);
  }

  lemma QuietEvent(e: Event)
    requires e != DefineExperiment && e != RunPhaseExperiments
    ensures forall before :: RunsIn(before, [e]) == before
  {
    forall before
      ensures RunsIn(before, [e]) == before
    {
      RunsInOne(before, e);
    }
  }

  lemma RunsOneMore(before: seq<nat>, n: nat)
    ensures RunsIn(before + [n], [RunPhaseExperiments]) == before + [n + 1]
  {
    RunsInOne(before + [n], RunPhaseExperiments);
    hide RunsIn;
    assert Init(before + [n]) == before && Last(before + [n]) == n;
  }

  lemma RepeatedNext(m: nat)
    requires m > 0
    ensures Repeated(m) == Repeated(m - 1) + [RunPhaseExperiments]
    ensures multiset(Repeated(m)) == multiset(Repeated(m - 1)) + multiset{RunPhaseExperiments}
  {
  }

  lemma RepeatedNot()
    ensures Repeated(0) == [] && forall before :: RunsIn(before, []) == before
  {
  }

  lemma {:induction false} RepeatedTells(before: seq<nat>, n: nat, m: nat)
    ensures RunsIn(before + [n], Repeated(m)) == before + [n + m]
    ensures multiset(Repeated(m)) == multiset{}[RunPhaseExperiments := m]
  {
    hide *;
    if m == 0 {
      RepeatedNot();
    } else {
      RepeatedTells(before, n, m - 1);
      RepeatedNext(m);
      RunsInAppend(before + [n], Repeated(m - 1), [RunPhaseExperiments]);
      RunsOneMore(before, n + m - 1);
    }
  }

  lemma RunsOfOne(e: Experiment)
    ensures RunsOf([e]) == [e.repeats + 1] && Sum(RunsOf([e])) == e.repeats + 1
  {
    assert Init([e]) == [] && RunsOf([e]) == [] + [e.repeats + 1];
    SumNext([], e.repeats + 1);
  }

  lemma ExperimentTells(e: Experiment)
    ensures Tells(ExperimentEvents(e), NOTHING.(experiments := [e]))
  {
    hide RunsOf, Sum, Repeated, RunsIn;
    RunsOfOne(e);
    RepeatedTells([], 0, e.repeats + 1);
    assert multiset(ExperimentEvents(e)) ==
           multiset{DefineExperiment, ConsiderRestart} + multiset(Repeated(e.repeats + 1));
    forall before
      ensures RunsIn(before, ExperimentEvents(e)) == before + RunsOf([e])
    {
      RunsAlone(before, e);
    }
  }

  lemma RunsAlone(before: seq<nat>, e: Experiment)
    ensures RunsIn(before, ExperimentEvents(e)) == before + [e.repeats + 1]
  {
    RunsInOne(before, DefineExperiment);
    RunsInOne(before + [0], ConsiderRestart);
    RepeatedTells(before, 0, e.repeats + 1);
    hide RunsIn, Repeated;
    assert [DefineExperiment] + [ConsiderRestart] == [DefineExperiment, ConsiderRestart];
    RunsInAppend(before, [DefineExperiment], [ConsiderRestart]);
    RunsInAppend(before, [DefineExperiment, ConsiderRestart], Repeated(e.repeats + 1));
  }

  lemma {:induction false} ExperimentsTell(es: seq<Experiment>)
    ensures Tells(ExperimentsEvents(es), NOTHING.(experiments := es))
  {
    if es == [] {
      NothingTells();
    } else {
      assert ExperimentsEvents(es) == ExperimentsEvents(Init(es)) + ExperimentEvents(Last(es));
      hide Tells, ExperimentEvents, ExperimentsEvents;
      ExperimentsTell(Init(es));
      ExperimentTells(Last(es));
      TellsAppend(ExperimentsEvents(Init(es)), NOTHING.(experiments := Init(es)),
                  ExperimentEvents(Last(es)), NOTHING.(experiments := [Last(es)]));
      assert es == Init(es) + [Last(es)];
    }
  }

  lemma {:induction false} PoolsTell(pools: seq<seq<Experiment>>)
    ensures Tells(PoolsEvents(pools), NOTHING.(pools := |pools|, experiments := Flat(pools)))
  {
    if pools == [] {
      NothingTells();
    } else {
      hide Tells, ExperimentsEvents;
      var before, es := Init(pools), Last(pools);
      PoolsTell(before);
      EventTells(PrepareScenarios);
      ExperimentsTell(es);
      TellsAppend([PrepareScenarios], NOTHING.(pools := 1), ExperimentsEvents(es), NOTHING.(experiments := es));
      assert [] + es == es;
      TellsAppend(PoolsEvents(before), NOTHING.(pools := |before|, experiments := Flat(before)),
                  [PrepareScenarios] + ExperimentsEvents(es), NOTHING.(pools := 1, experiments := es));
    }
  }

  function StepTally(step: SearchStep): Tally {
    Tally(0, 1, if step.analysisRequired then 1 else 0, |step.pools|, Flat(step.pools))
  }

  lemma SearchStepTells(step: SearchStep)
    ensures Tells(SearchStepEvents(step), StepTally(step))
  {
    hide Tells, PoolsEvents, Flat;
    var none: seq<Experiment> := [];
    var pools := NOTHING.(pools := |step.pools|, experiments := Flat(step.pools));
    NothingTells();
    EventTells(PerformAnalysis);
    EventTells(CreateScenarios);
    PoolsTell(step.pools);
    assert none + Flat(step.pools) == Flat(step.pools) && none + none == none;
    if step.analysisRequired {
      TellsAppend([PerformAnalysis], NOTHING.(analyses := 1), [CreateScenarios], NOTHING.(searchSteps := 1));
      TellsAppend([PerformAnalysis] + [CreateScenarios], Tally(0, 1, 1, 0, []), PoolsEvents(step.pools), pools);
    } else {
      assert [] + [CreateScenarios] == [CreateScenarios];
      TellsAppend([CreateScenarios], Tally(0, 1, 0, 0, []), PoolsEvents(step.pools), pools);
    }
  }

  /** What some search steps consist of. */
  function StepsTally(steps: TuningStep): Tally {
    Tally(0, |steps|, Analyses(steps), |PoolsOf(steps)|, Flat(PoolsOf(steps)))
  }

  lemma StepsTallyAppend(a: TuningStep, b: TuningStep)
    ensures StepsTally(a + b) == Plus(StepsTally(a), StepsTally(b))
  {
    PoolsOfAppend(a, b);
    FlatAppend(PoolsOf(a), PoolsOf(b));
    hide PoolsOf, Analyses, Flat;
  }

  lemma StepsTallyOne(step: SearchStep)
    ensures StepsTally([step]) == StepTally(step)
  {
    assert Init([step]) == [] && Last([step]) == step && PoolsOf([]) == [] && Analyses([]) == 0;
    assert PoolsOf([step]) == [] + step.pools == step.pools;
    assert Analyses([step]) == if step.analysisRequired then 1 else 0;
  }

  lemma SearchStepsTold(steps: TuningStep)
    requires steps != []
    ensures SearchStepsEvents(steps) == SearchStepsEvents(Init(steps)) + SearchStepEvents(Last(steps))
    ensures steps == Init(steps) + [Last(steps)] && |Init(steps)| < |steps|
  {
    hide SearchStepEvents;
  }

  lemma {:induction false} SearchStepsTell(steps: TuningStep)
    ensures Tells(SearchStepsEvents(steps), StepsTally(steps))
    decreases |steps|
  {
    hide *;
    if steps == [] {
      NothingTells();
    } else {
      SearchStepsTold(steps);
      StepsTallyAppend(Init(steps), [Last(steps)]);
      StepsTallyOne(Last(steps));
      SearchStepsTell(Init(steps));
      SearchStepTells(Last(steps));
      TellsAppend(SearchStepsEvents(Init(steps)), StepsTally(Init(steps)), SearchStepEvents(Last(steps)),
                  StepTally(Last(steps)));
    }
  }

  lemma TuningStepTells(step: TuningStep)
    ensures Tells(TuningStepEvents(step), StepsTally(step).(tuningSteps := 1))
  {
    hide *;
    SearchStepsTell(step);
    TuningStepIs(step);
    Wrapped(SearchStepsEvents(step), StepsTally(step));
  }

  lemma TuningStepIs(step: TuningStep)
    ensures TuningStepEvents(step) == [StartTuningStep] + SearchStepsEvents(step) + [FinishTuningStep]
    ensures StepsTally(step).tuningSteps == 0
  {
  }

  lemma Wrapped(events: seq<Event>, t: Tally)
    requires Tells(events, t) && t.tuningSteps == 0
    ensures Tells([StartTuningStep] + events + [FinishTuningStep], t.(tuningSteps := 1))
  {
    hide RunsOf, Sum, RunsIn;
    Around(StartTuningStep, events, FinishTuningStep, t);
    CountAround(StartTuningStep, events, FinishTuningStep);
    forall e: Event
      ensures multiset([StartTuningStep] + events + [FinishTuningStep])[e] == Times(t.(tuningSteps := 1), e)
    {
      assert multiset(events)[e] == Times(t, e);
    }
  }

  lemma CountAround(first: Event, events: seq<Event>, last: Event)
    ensures forall e :: multiset([first] + events + [last])[e] ==
              multiset(events)[e] + (if e == first then 1 else 0) + if e == last then 1 else 0
  {
    assert multiset([first] + events + [last]) == multiset{first} + multiset(events) + multiset{last};
  }

  /** Events at both ends do not change what is run. */
  lemma Around(first: Event, events: seq<Event>, last: Event, t: Tally)
    requires first != DefineExperiment && first != RunPhaseExperiments
    requires last != DefineExperiment && last != RunPhaseExperiments && RunsAll(events, t)
    ensures forall before :: RunsIn(before, [first] + events + [last]) == before + RunsOf(t.experiments)
  {
    QuietEvent(first);
    QuietEvent(last);
    hide RunsIn, RunsOf;
    forall before
      ensures RunsIn(before, [first] + events + [last]) == before + RunsOf(t.experiments)
    {
      RunsInAppend(before, [first], events);
      RunsInAppend(before, [first] + events, [last]);
    }
  }

  lemma TuningStepsTold(answers: Answers)
    requires answers != []
    ensures TuningStepsEvents(answers) == TuningStepsEvents(Init(answers)) + TuningStepEvents(Last(answers))
    ensures Flat(answers) == Flat(Init(answers)) + Last(answers) && |Init(answers)| == |answers| - 1
  {
    hide TuningStepEvents;
  }

  lemma {:induction false} TuningStepsTell(answers: Answers)
    ensures Tells(TuningStepsEvents(answers), StepsTally(Flat(answers)).(tuningSteps := |answers|))
    decreases |answers|
  {
    hide *;
    if answers == [] {
      NothingTells();
      NothingIs();
    } else {
      TuningStepsTold(answers);
      StepsTallyAppend(Flat(Init(answers)), Last(answers));
      TuningStepsTell(Init(answers));
      TuningStepTells(Last(answers));
      TellsAppend(TuningStepsEvents(Init(answers)), StepsTally(Flat(Init(answers))).(tuningSteps := |answers| - 1),
                  TuningStepEvents(Last(answers)), StepsTally(Last(answers)).(tuningSteps := 1));
      PlusTuning(StepsTally(Flat(Init(answers))), |answers| - 1, StepsTally(Last(answers)), 1);
    }
  }

  lemma NothingIs()
    ensures NOTHING.tuningSteps == 0
  {
  }

  lemma PlusTuning(a: Tally, m: nat, b: Tally, n: nat)
    ensures Plus(a.(tuningSteps := m), b.(tuningSteps := n)) == Plus(a, b).(tuningSteps := m + n)
  {
  }

  /** What the whole run consists of. */
  function RunTally(answers: Answers): Tally {
    StepsTally(Flat(answers)).(tuningSteps := |answers|)
  }

  /** The whole run runs each experiment, in order, as often as it has to be. */
  lemma RunsTold(answers: Answers)
    ensures RunsIn([], Events(answers)) == RunsOf(Flat(PoolsOf(Flat(answers))))
  {
    var events, t := TuningStepsEvents(answers), RunTally(answers);
    assert Events(answers) == ([InitializePlugin] + events + [CreateTuningAdvice]) + [FinalizeAutotuning];
    assert t.experiments == Flat(PoolsOf(Flat(answers)));
    TuningStepsTell(answers);
    assert RunsAll(events, t);
    hide Events, RunsIn, RunsOf, RunTally, TuningStepsEvents, Tells, RunsAll;
    Around(InitializePlugin, events, CreateTuningAdvice, t);
    QuietEvent(FinalizeAutotuning);
    RunsInAppend([], [InitializePlugin] + events + [CreateTuningAdvice], [FinalizeAutotuning]);
  }

  /** It issues each event as often as the answers ask for. */
  lemma EventsTold(answers: Answers, e: Event)
    requires e != InitializePlugin && e != CreateTuningAdvice && e != FinalizeAutotuning
    ensures multiset(Events(answers))[e] == Times(RunTally(answers), e)
  {
    hide TuningStepsEvents, StepsTally, Times, RunsAll;
    var events := TuningStepsEvents(answers);
    assert multiset(Events(answers)) ==
           multiset{InitializePlugin} + multiset(events) + multiset{CreateTuningAdvice, FinalizeAutotuning};
    TuningStepsTell(answers);
  }

  // ----- what the driver relies on ----------------------------------------------------------

  lemma ExperimentAdds(issued: seq<Event>, e: Experiment)
    ensures var now := issued + ExperimentEvents(e);
            && multiset(now)[DefineExperiment] == multiset(issued)[DefineExperiment] + 1
            && multiset(now)[ConsiderRestart] == multiset(issued)[ConsiderRestart] + 1
            && multiset(now)[RunPhaseExperiments] == multiset(issued)[RunPhaseExperiments] + e.repeats + 1
            && RunsIn([], now) == RunsIn([], issued) + [e.repeats + 1]
  {
    hide ExperimentEvents, RunsIn, RunsOf, Sum;
    ExperimentTells(e);
    RunsOfOne(e);
    RunsInAppend([], issued, ExperimentEvents(e));
    assert multiset(issued + ExperimentEvents(e)) == multiset(issued) + multiset(ExperimentEvents(e));
  }

  lemma StepAdds(issued: seq<Event>, step: SearchStep)
    ensures var now := issued + SearchStepEvents(step);
            && multiset(now)[CreateScenarios] == multiset(issued)[CreateScenarios] + 1
            && multiset(now)[PerformAnalysis] ==
               multiset(issued)[PerformAnalysis] + (if step.analysisRequired then 1 else 0)
            && multiset(now)[PrepareScenarios] == multiset(issued)[PrepareScenarios] + |step.pools|
            && RunsIn([], now) == RunsIn([], issued) + RunsOf(Flat(step.pools))
  {
    hide SearchStepEvents, RunsIn, RunsOf, Sum, Flat;
    SearchStepTells(step);
    RunsInAppend([], issued, SearchStepEvents(step));
    assert multiset(issued + SearchStepEvents(step)) == multiset(issued) + multiset(SearchStepEvents(step));
  }

  lemma RunTells(answers: Answers)
    ensures var events, steps := Events(answers), Flat(answers);
            && RunsIn([], events) == RunsOf(Flat(PoolsOf(steps)))
            && multiset(events)[RunPhaseExperiments] == Sum(RunsOf(Flat(PoolsOf(steps))))
            && multiset(events)[DefineExperiment] == multiset(events)[ConsiderRestart] == |Flat(PoolsOf(steps))|
            && multiset(events)[PrepareScenarios] == |PoolsOf(steps)|
            && multiset(events)[CreateScenarios] == |steps|
            && multiset(events)[PerformAnalysis] == Analyses(steps)
            && multiset(events)[StartTuningStep] == multiset(events)[FinishTuningStep] == |answers|
  {
    hide Events, RunsIn, RunsOf, Sum, Flat, PoolsOf, Analyses;
    RunsTold(answers);
    EventsTold(answers, RunPhaseExperiments);
    EventsTold(answers, DefineExperiment);
    EventsTold(answers, ConsiderRestart);
    EventsTold(answers, PrepareScenarios);
    EventsTold(answers, CreateScenarios);
    EventsTold(answers, PerformAnalysis);
    EventsTold(answers, StartTuningStep);
    EventsTold(answers, FinishTuningStep);
  }

  lemma NoPools()
    ensures Flat<Experiment>([]) == [] && Flat<SearchStep>([]) == [] && PoolsOf([]) == []
  {
  }

  lemma FlatNext<T>(parts: seq<seq<T>>, i: nat)
    requires i < |parts|
    ensures Flat(parts[..i + 1]) == Flat(parts[..i]) + parts[i]
  {
    Prefix(parts, i);
  }

  lemma PoolCountsNext(steps: TuningStep, s: nat)
    requires s < |steps|
    ensures |Flat(PoolsOf(steps[..s + 1]))| == |Flat(PoolsOf(steps[..s]))| + |Flat(steps[s].pools)|
  {
    Prefix(steps, s);
    FlatAppend(PoolsOf(steps[..s]), steps[s].pools);
  }

  lemma StepsNext(answers: Answers, t: nat)
    requires t < |answers|
    ensures |Flat(PoolsOf(Flat(answers[..t + 1])))| == |Flat(PoolsOf(Flat(answers[..t])))| + |Flat(PoolsOf(answers[t]))|
  {
    FlatNext(answers, t);
    PoolsOfAppend(Flat(answers[..t]), answers[t]);
    FlatAppend(PoolsOf(Flat(answers[..t])), PoolsOf(answers[t]));
  }
}
