/** The state machine the tuning driver reports to, which ends the program at an event it has no transition
    for; what a plugin may answer; and which events the answers lead to. */
module TuningEvents {
  import opened Options
  import opened Sequences

  // ----- the transition table ---------------------------------------------------------------

  datatype State =
    | InitialState | InitializingPlugin | StartingTuningStep | PerformingAnalysis | CreatingScenarios
    | PreparingScenarios | DefiningExperiments | ConsideringApplicationRestart | RunningPhaseExperiments
    | FinishingTuningStep | CreatingTuningAdvice | FinalState

  datatype Event =
    | InitializePlugin | StartTuningStep | PerformAnalysis | CreateScenarios | PrepareScenarios
    | DefineExperiment | ConsiderRestart | RunPhaseExperiments | FinishTuningStep
    | CreateTuningAdvice | FinalizeAutotuning

  function Next(state: State, event: Event): Option<State> {
    match (state, event)
    case (InitialState, InitializePlugin) => Some(InitializingPlugin)
    case (InitializingPlugin, StartTuningStep) => Some(StartingTuningStep)
    case (StartingTuningStep, CreateScenarios) => Some(CreatingScenarios)
    case (StartingTuningStep, PerformAnalysis) => Some(PerformingAnalysis)
    case (PerformingAnalysis, CreateScenarios) => Some(CreatingScenarios)
    case (CreatingScenarios, PrepareScenarios) => Some(PreparingScenarios)
    case (CreatingScenarios, FinishTuningStep) => Some(FinishingTuningStep)
    case (PreparingScenarios, DefineExperiment) => Some(DefiningExperiments)
    case (DefiningExperiments, ConsiderRestart) => Some(ConsideringApplicationRestart)
    case (ConsideringApplicationRestart, RunPhaseExperiments) => Some(RunningPhaseExperiments)
    case (RunningPhaseExperiments, RunPhaseExperiments) => Some(RunningPhaseExperiments)
    case (RunningPhaseExperiments, DefineExperiment) => Some(DefiningExperiments)
    case (RunningPhaseExperiments, PrepareScenarios) => Some(PreparingScenarios)
    case (RunningPhaseExperiments, CreateScenarios) => Some(CreatingScenarios)
    case (RunningPhaseExperiments, FinishTuningStep) => Some(FinishingTuningStep)
    case (FinishingTuningStep, StartTuningStep) => Some(StartingTuningStep)
    case (FinishingTuningStep, CreateTuningAdvice) => Some(CreatingTuningAdvice)
    case (CreatingTuningAdvice, FinalizeAutotuning) => Some(FinalState)
    case _ => None
  }

  /** The state after some events; `None` once one of them had no transition. */
  function After(state: Option<State>, events: seq<Event>): Option<State> {
    if events == [] then state
    else
      match After(state, Init(events))
      case None => None
      case Some(s) => Next(s, Last(events))
  }

  lemma {:induction false} AfterAppend(state: Option<State>, a: seq<Event>, b: seq<Event>)
    ensures After(state, a + b) == After(After(state, a), b)
  {
    if b == [] {
      assert a + b == a;
    } else {
      AfterAppend(state, a, Init(b));
      assert Init(a + b) == a + Init(b);
    }
  }

  // ----- what the plugin may answer ---------------------------------------------------------

  /** An experiment, with the number of times it has to be repeated because of a restart. */
  datatype Experiment = Experiment(repeats: nat)

  /** A search step: whether an analysis is required, and for each time the pool of created
      scenarios is not empty, the experiments until the prepared pool is. */
  datatype SearchStep = SearchStep(analysisRequired: bool, pools: seq<seq<Experiment>>)

  type TuningStep = seq<SearchStep>

  type Answers = seq<TuningStep>

  /** Every loop but the one over pools looks at its condition only after the first turn. */
  predicate Possible(answers: Answers) {
    answers != [] && forall t :: 0 <= t < |answers| ==> PossibleStep(answers[t])
  }

  predicate PossibleStep(step: TuningStep) {
    step != [] && forall s :: 0 <= s < |step| ==> PossiblePools(step[s].pools)
  }

  predicate PossiblePools(pools: seq<seq<Experiment>>) {
    forall p :: 0 <= p < |pools| ==> pools[p] != []
  }

  // ----- the events that are issued ---------------------------------------------------------

  function Repeated(n: nat): seq<Event> {
    if n == 0 then [] else Repeated(n - 1) + [RunPhaseExperiments]
  }

  function ExperimentEvents(e: Experiment): seq<Event> {
    [DefineExperiment, ConsiderRestart] + Repeated(e.repeats + 1)
  }

  function ExperimentsEvents(es: seq<Experiment>): seq<Event> {
    if es == [] then [] else ExperimentsEvents(Init(es)) + ExperimentEvents(Last(es))
  }

  function PoolsEvents(pools: seq<seq<Experiment>>): seq<Event> {
    if pools == [] then [] else PoolsEvents(Init(pools)) + ([PrepareScenarios] + ExperimentsEvents(Last(pools)))
  }

  function SearchStepEvents(step: SearchStep): seq<Event> {
    (if step.analysisRequired then [PerformAnalysis] else []) + [CreateScenarios] + PoolsEvents(step.pools)
  }

  function SearchStepsEvents(steps: TuningStep): seq<Event> {
    if steps == [] then [] else SearchStepsEvents(Init(steps)) + SearchStepEvents(Last(steps))
  }

  function TuningStepEvents(step: TuningStep): seq<Event> {
    [StartTuningStep] + SearchStepsEvents(step) + [FinishTuningStep]
  }

  function TuningStepsEvents(answers: Answers): seq<Event> {
    if answers == [] then []
    else TuningStepsEvents(Init(answers)) + TuningStepEvents(Last(answers))
  }

  function Events(answers: Answers): seq<Event> {
    [InitializePlugin] + TuningStepsEvents(answers) + [CreateTuningAdvice, FinalizeAutotuning]
  }

  // ----- which answers the table allows -----------------------------------------------------

  /** Analysis at most in the first search step, and no scenarios at most in the last one. */
  predicate Fits(step: TuningStep) {
    && (forall s :: 0 < s < |step| ==> !step[s].analysisRequired)
    && (forall s :: 0 <= s < |step| - 1 ==> step[s].pools != [])
  }

  predicate AllFit(answers: Answers) {
    forall t :: 0 <= t < |answers| ==> Fits(answers[t])
  }

  lemma After1(s: State, e: Event)
    ensures After(Some(s), [e]) == Next(s, e)
  {
    assert Init([e]) == [];
  }

  lemma {:induction false} Dead(events: seq<Event>)
    ensures After(None, events) == None
  {
    if events != [] {
      Dead(Init(events));
    }
  }

  lemma {:induction false} RepeatedRuns(n: nat)
    ensures After(Some(ConsideringApplicationRestart), Repeated(n + 1)) == Some(RunningPhaseExperiments)
  {
    AfterAppend(Some(ConsideringApplicationRestart), Repeated(n), [RunPhaseExperiments]);
    if n > 0 {
      RepeatedRuns(n - 1);
      After1(RunningPhaseExperiments, RunPhaseExperiments);
    } else {
      After1(ConsideringApplicationRestart, RunPhaseExperiments);
    }
  }

  lemma ExperimentRuns(s: State, e: Experiment)
    requires s == PreparingScenarios || s == RunningPhaseExperiments
    ensures After(Some(s), ExperimentEvents(e)) == Some(RunningPhaseExperiments)
  {
    After1(s, DefineExperiment);
    After1(DefiningExperiments, ConsiderRestart);
    AfterAppend(Some(s), [DefineExperiment], [ConsiderRestart]);
    assert [DefineExperiment] + [ConsiderRestart] == [DefineExperiment, ConsiderRestart];
    AfterAppend(Some(s), [DefineExperiment, ConsiderRestart], Repeated(e.repeats + 1));
    RepeatedRuns(e.repeats);
  }

  lemma {:induction false} ExperimentsRun(es: seq<Experiment>)
    requires es != []
    ensures After(Some(PreparingScenarios), ExperimentsEvents(es)) == Some(RunningPhaseExperiments)
  {
    AfterAppend(Some(PreparingScenarios), ExperimentsEvents(Init(es)), ExperimentEvents(Last(es)));
    if |es| > 1 {
      ExperimentsRun(Init(es));
      ExperimentRuns(RunningPhaseExperiments, Last(es));
    } else {
      ExperimentRuns(PreparingScenarios, Last(es));
    }
  }

  lemma {:induction false} PoolsRun(pools: seq<seq<Experiment>>)
    requires PossiblePools(pools)
    ensures After(Some(CreatingScenarios), PoolsEvents(pools))
         == Some(if pools == [] then CreatingScenarios else RunningPhaseExperiments)
  {
    if pools != [] {
      var before := if |pools| == 1 then CreatingScenarios else RunningPhaseExperiments;
      PoolsRun(Init(pools));
      AfterAppend(Some(CreatingScenarios), PoolsEvents(Init(pools)),
                  [PrepareScenarios] + ExperimentsEvents(Last(pools)));
      AfterAppend(Some(before), [PrepareScenarios], ExperimentsEvents(Last(pools)));
      After1(before, PrepareScenarios);
      ExperimentsRun(Last(pools));
    }
  }

  /** Where a search step leads from where the last one ended. */
  function StepResult(s: State, step: SearchStep): Option<State> {
    if s == CreatingScenarios || (step.analysisRequired && s == RunningPhaseExperiments) then None
    else Some(if step.pools == [] then CreatingScenarios else RunningPhaseExperiments)
  }

  lemma SearchStepRuns(s: State, step: SearchStep)
    requires s == StartingTuningStep || s == RunningPhaseExperiments || s == CreatingScenarios
    requires PossiblePools(step.pools)
    ensures After(Some(s), SearchStepEvents(step)) == StepResult(s, step)
  {
    var analysis := if step.analysisRequired then [PerformAnalysis] else [];
    After1(s, PerformAnalysis);
    var analysed := After(Some(s), analysis);
    AfterAppend(Some(s), analysis, [CreateScenarios]);
    AfterAppend(Some(s), analysis + [CreateScenarios], PoolsEvents(step.pools));
    Dead([CreateScenarios]);
    Dead(PoolsEvents(step.pools));
    if analysed.Some? {
      After1(analysed.value, CreateScenarios);
    }
    PoolsRun(step.pools);
  }

  function StepsResult(steps: TuningStep): Option<State> {
    if steps == [] then Some(StartingTuningStep)
    else if !Fits(steps) then None
    else Some(if Last(steps).pools == [] then CreatingScenarios else RunningPhaseExperiments)
  }

  lemma FitsSnoc(steps: TuningStep)
    requires steps != []
    ensures Fits(steps) <==>
              Fits(Init(steps)) && (|steps| > 1 ==> !Last(steps).analysisRequired && Last(Init(steps)).pools != [])
  {
  }

  lemma {:induction false} SearchStepsRun(steps: TuningStep)
    requires forall s :: 0 <= s < |steps| ==> PossiblePools(steps[s].pools)
    ensures After(Some(StartingTuningStep), SearchStepsEvents(steps)) == StepsResult(steps)
  {
    if steps != [] {
      SearchStepsRun(Init(steps));
      AfterAppend(Some(StartingTuningStep), SearchStepsEvents(Init(steps)), SearchStepEvents(Last(steps)));
      Dead(SearchStepEvents(Last(steps)));
      FitsSnoc(steps);
      hide After, Fits;
      var before := StepsResult(Init(steps));
      if before.Some? {
        SearchStepRuns(before.value, Last(steps));
      }
    }
  }

  lemma TuningStepRuns(s: State, step: TuningStep)
    requires s == InitializingPlugin || s == FinishingTuningStep
    requires PossibleStep(step)
    ensures After(Some(s), TuningStepEvents(step)) == if Fits(step) then Some(FinishingTuningStep) else None
  {
    After1(s, StartTuningStep);
    hide After, Fits, SearchStepsEvents;
    AfterAppend(Some(s), [StartTuningStep], SearchStepsEvents(step));
    AfterAppend(Some(s), [StartTuningStep] + SearchStepsEvents(step), [FinishTuningStep]);
    SearchStepsRun(step);
    Dead([FinishTuningStep]);
    After1(CreatingScenarios, FinishTuningStep);
    After1(RunningPhaseExperiments, FinishTuningStep);
  }

  lemma {:induction false} TuningStepsRun(answers: Answers)
    requires forall t :: 0 <= t < |answers| ==> PossibleStep(answers[t])
    ensures After(Some(InitializingPlugin), TuningStepsEvents(answers))
         == if answers == [] then Some(InitializingPlugin)
            else if AllFit(answers) then Some(FinishingTuningStep) else None
  {
    if answers != [] {
      AllFitSnoc(answers);
      hide After, Fits, AllFit, TuningStepEvents, PossibleStep;
      TuningStepsRun(Init(answers));
      AfterAppend(Some(InitializingPlugin), TuningStepsEvents(Init(answers)), TuningStepEvents(Last(answers)));
      Dead(TuningStepEvents(Last(answers)));
      TuningStepRuns(InitializingPlugin, Last(answers));
      TuningStepRuns(FinishingTuningStep, Last(answers));
    }
  }

  lemma AllFitSnoc(answers: Answers)
    requires answers != []
    ensures AllFit(answers) <==> AllFit(Init(answers)) && Fits(Last(answers))
    ensures AllFit([])
  {
    hide Fits;
  }

  lemma Ending()
    ensures After(Some(FinishingTuningStep), [CreateTuningAdvice, FinalizeAutotuning]) == Some(FinalState)
  {
    AfterAppend(Some(FinishingTuningStep), [CreateTuningAdvice], [FinalizeAutotuning]);
    assert [CreateTuningAdvice] + [FinalizeAutotuning] == [CreateTuningAdvice, FinalizeAutotuning];
    After1(FinishingTuningStep, CreateTuningAdvice);
    After1(CreatingTuningAdvice, FinalizeAutotuning);
  }

  /** The driver gets to the end exactly when, in each tuning step, analysis is required at most in
      the first search step, and no scenarios are created at most in the last one; whatever else
      the plugin answers.  Otherwise the state machine ends the program. */
  lemma AcceptedIff(answers: Answers)
    requires Possible(answers)
    ensures After(Some(InitialState), Events(answers)) == if AllFit(answers) then Some(FinalState) else None
  {
    After1(InitialState, InitializePlugin);
    hide After, AllFit, TuningStepsEvents;
    AfterAppend(Some(InitialState), [InitializePlugin], TuningStepsEvents(answers));
    TuningStepsRun(answers);
    AfterAppend(Some(InitialState), [InitializePlugin] + TuningStepsEvents(answers),
                [CreateTuningAdvice, FinalizeAutotuning]);
    Ending();
    Dead([CreateTuningAdvice, FinalizeAutotuning]);
  }

  lemma Prefix<T>(s: seq<T>, i: nat)
    requires i < |s|
    ensures s[..i + 1] != [] && Init(s[..i + 1]) == s[..i] && Last(s[..i + 1]) == s[i]
  {
  }

  // No turn of a loop, one more, and what follows the last one.

  lemma NoTurns(before: seq<Event>)
    ensures before + ExperimentsEvents([]) == before + PoolsEvents([]) == before
    ensures before + SearchStepsEvents([]) == before + TuningStepsEvents([]) == before
  {
  }

  lemma NoRuns(before: seq<Event>)
    ensures before + [DefineExperiment] + [ConsiderRestart]
         == before + ([DefineExperiment, ConsiderRestart] + Repeated(0))
  {
    assert before + [DefineExperiment] + [ConsiderRestart] == before + [DefineExperiment, ConsiderRestart];
  }

  lemma OneMoreRun(before: seq<Event>, turn: nat)
    ensures before + ([DefineExperiment, ConsiderRestart] + Repeated(turn)) + [RunPhaseExperiments]
         == before + ([DefineExperiment, ConsiderRestart] + Repeated(turn + 1))
  {
    Regroup([DefineExperiment, ConsiderRestart], Repeated(turn), [RunPhaseExperiments]);
    Regroup(before, [DefineExperiment, ConsiderRestart] + Repeated(turn), [RunPhaseExperiments]);
  }

  lemma ExperimentIs(e: Experiment)
    ensures ExperimentEvents(e) == [DefineExperiment, ConsiderRestart] + Repeated(e.repeats + 1)
  {
  }

  lemma PoolAssembled(before: seq<Event>, es: seq<Experiment>)
    ensures before + [PrepareScenarios] + ExperimentsEvents(es) == before + ([PrepareScenarios] + ExperimentsEvents(es))
  {
    Regroup(before, [PrepareScenarios], ExperimentsEvents(es));
  }

  lemma SearchStepAssembled(before: seq<Event>, step: SearchStep)
    ensures before + ((if step.analysisRequired then [PerformAnalysis] else []) + [CreateScenarios])
            + PoolsEvents(step.pools)
         == before + SearchStepEvents(step)
  {
    Regroup(before, (if step.analysisRequired then [PerformAnalysis] else []) + [CreateScenarios],
            PoolsEvents(step.pools));
  }

  lemma TuningStepAssembled(before: seq<Event>, step: TuningStep)
    ensures before + [StartTuningStep] + SearchStepsEvents(step) + [FinishTuningStep] == before + TuningStepEvents(step)
  {
    Regroup(before, [StartTuningStep], SearchStepsEvents(step));
    Regroup(before, [StartTuningStep] + SearchStepsEvents(step), [FinishTuningStep]);
  }

  lemma RunAssembled(answers: Answers)
    ensures [] + [InitializePlugin] + TuningStepsEvents(answers) + [CreateTuningAdvice] + [FinalizeAutotuning]
         == Events(answers)
  {
    assert [] + [InitializePlugin] == [InitializePlugin];
    assert [CreateTuningAdvice] + [FinalizeAutotuning] == [CreateTuningAdvice, FinalizeAutotuning];
    Regroup([InitializePlugin] + TuningStepsEvents(answers), [CreateTuningAdvice], [FinalizeAutotuning]);
  }

  lemma ExperimentsNext(before: seq<Event>, es: seq<Experiment>, i: nat)
    requires i < |es|
    ensures before + ExperimentsEvents(es[..i]) + ExperimentEvents(es[i]) == before + ExperimentsEvents(es[..i + 1])
  {
    Prefix(es, i);
    Regroup(before, ExperimentsEvents(es[..i]), ExperimentEvents(es[i]));
  }

  lemma PoolsNext(before: seq<Event>, pools: seq<seq<Experiment>>, i: nat)
    requires i < |pools|
    ensures before + PoolsEvents(pools[..i]) + ([PrepareScenarios] + ExperimentsEvents(pools[i]))
         == before + PoolsEvents(pools[..i + 1])
  {
    Prefix(pools, i);
    Regroup(before, PoolsEvents(pools[..i]), [PrepareScenarios] + ExperimentsEvents(pools[i]));
  }

  lemma SearchStepsNext(before: seq<Event>, steps: TuningStep, i: nat)
    requires i < |steps|
    ensures before + SearchStepsEvents(steps[..i]) + SearchStepEvents(steps[i])
         == before + SearchStepsEvents(steps[..i + 1])
  {
    Prefix(steps, i);
    Regroup(before, SearchStepsEvents(steps[..i]), SearchStepEvents(steps[i]));
  }

  lemma TuningStepsNext(before: seq<Event>, answers: Answers, i: nat)
    requires i < |answers|
    ensures before + TuningStepsEvents(answers[..i]) + TuningStepEvents(answers[i])
         == before + TuningStepsEvents(answers[..i + 1])
  {
    Prefix(answers, i);
    Regroup(before, TuningStepsEvents(answers[..i]), TuningStepEvents(answers[i]));
  }

  lemma NothingYet()
    ensures After(Some(InitialState), []) == Some(InitialState)
  {
  }
}
