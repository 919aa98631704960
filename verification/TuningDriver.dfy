/** The tuning driver: a nest of loops that the plugin's answers steer, and that reports every step to the
    state machine. */
module TuningDriver {
  import opened Options
  import opened Sequences
  import opened TuningCounts
  import opened TuningEvents

  lemma Possibly(step: TuningStep)
    requires PossibleStep(step)
    ensures step != [] && forall s :: 0 <= s < |step| ==> PossiblePools(step[s].pools)
  {
  }

  lemma AllPossible(answers: Answers)
    requires Possible(answers)
    ensures answers != [] && forall t :: 0 <= t < |answers| ==> PossibleStep(answers[t])
  {
  }

  lemma NoEmptyPool(pools: seq<seq<Experiment>>)
    requires PossiblePools(pools)
    ensures forall p :: 0 <= p < |pools| ==> pools[p] != []
  {
  }

  /** The machine, and the counters of the plugin context. */
  class Driver {
    var state: Option<State>
    var tuningStep: nat
    var searchStep: nat
    var experimentCount: nat
    ghost var issued: seq<Event>

    ghost predicate Valid()
      reads this`state, this`issued
    {
      state == After(Some(InitialState), issued)
    }

    constructor ()
      ensures Valid() && issued == [] && tuningStep == searchStep == experimentCount == 0
    {
      state, issued, tuningStep, searchStep, experimentCount := Some(InitialState), [], 0, 0, 0;
    }

    /** An event without a transition ends the program: nothing that follows has an effect. */
    method ProcessEvent(event: Event)
      requires Valid()
      modifies this`state, this`issued
      ensures Valid() && issued == old(issued) + [event]
    {
      AfterAppend(Some(InitialState), issued, [event]);
      Dead([event]);
      if state.Some? {
        After1(state.value, event);
      }
      state := if state.None? then None else Next(state.value, event);
      issued := issued + [event];
    }

    method RunExperiment(experiment: Experiment)
      requires Valid()
      modifies this`state, this`issued, this`experimentCount
      ensures Valid() && issued == old(issued) + ExperimentEvents(experiment)
      ensures experimentCount == old(experimentCount) + 1
      ensures multiset(issued)[DefineExperiment] == old(multiset(issued)[DefineExperiment]) + 1
      ensures multiset(issued)[ConsiderRestart] == old(multiset(issued)[ConsiderRestart]) + 1
      ensures multiset(issued)[RunPhaseExperiments] ==
              old(multiset(issued)[RunPhaseExperiments]) + experiment.repeats + 1
      ensures RunsIn([], issued) == RunsIn([], old(issued)) + [experiment.repeats + 1]
    {
      hide *;
      ProcessEvent(DefineExperiment);
      ProcessEvent(ConsiderRestart);
      NoRuns(old(issued));
      var turn := 0;
      while true
        invariant 0 <= turn <= experiment.repeats && experimentCount == old(experimentCount)
        invariant Valid() && issued == old(issued) + ([DefineExperiment, ConsiderRestart] + Repeated(turn))
        decreases experiment.repeats - turn
      {
        ProcessEvent(RunPhaseExperiments);
        OneMoreRun(old(issued), turn);
        var scenariosExecuted := turn == experiment.repeats;
        if scenariosExecuted {
          break;
        }
        turn := turn + 1;
      }
      ExperimentIs(experiment);
      ExperimentAdds(old(issued), experiment);
      experimentCount := experimentCount + 1;
    }

    method IssueCreation(analysisRequired: bool)
      requires Valid()
      modifies this`state, this`issued
      ensures Valid()
      ensures issued == old(issued) + ((if analysisRequired then [PerformAnalysis] else []) + [CreateScenarios])
    {
      hide After;
      if analysisRequired {
        ProcessEvent(PerformAnalysis);
      }
      ProcessEvent(CreateScenarios);
    }

    /** One search step: an analysis if the plugin requires one, the scenarios, and all experiments. */
    method RunSearchStep(step: SearchStep)
      requires Valid() && PossiblePools(step.pools)
      modifies this`state, this`issued, this`experimentCount, this`searchStep
      ensures Valid() && issued == old(issued) + SearchStepEvents(step)
      ensures searchStep == old(searchStep) + 1 && experimentCount == old(experimentCount) + |Flat(step.pools)|
      ensures multiset(issued)[CreateScenarios] == old(multiset(issued)[CreateScenarios]) + 1
      ensures multiset(issued)[PerformAnalysis] ==
              old(multiset(issued)[PerformAnalysis]) + if step.analysisRequired then 1 else 0
      ensures multiset(issued)[PrepareScenarios] == old(multiset(issued)[PrepareScenarios]) + |step.pools|
      ensures RunsIn([], issued) == RunsIn([], old(issued)) + RunsOf(Flat(step.pools))
    {
      hide *;
      IssueCreation(step.analysisRequired);
      RunPools(step.pools);
      SearchStepAssembled(old(issued), step);
      StepAdds(old(issued), step);
      searchStep := searchStep + 1;
    }

    /** As long as scenarios are created, they are prepared and experiments are run with them. */
    method RunPools(pools: seq<seq<Experiment>>)
      requires Valid() && PossiblePools(pools)
      modifies this`state, this`issued, this`experimentCount
      ensures Valid() && issued == old(issued) + PoolsEvents(pools)
      ensures experimentCount == old(experimentCount) + |Flat(pools)|
    {
      hide *;
      NoPools();
      NoEmptyPool(pools);
      NoTurns(issued);
      var p := 0;
      while p < |pools|
        invariant p <= |pools| && Valid() && issued == old(issued) + PoolsEvents(pools[..p])
        invariant experimentCount == old(experimentCount) + |Flat(pools[..p])|
      {
        RunPool(pools[p]);
        PoolsNext(old(issued), pools, p);
        FlatNext(pools, p);
        p := p + 1;
      }
      assert pools[..|pools|] == pools;
    }

    method RunPool(pool: seq<Experiment>)
      requires Valid() && pool != []
      modifies this`state, this`issued, this`experimentCount
      ensures Valid() && issued == old(issued) + ([PrepareScenarios] + ExperimentsEvents(pool))
      ensures experimentCount == old(experimentCount) + |pool|
    {
      hide *;
      ProcessEvent(PrepareScenarios);
      ghost var before := issued;
      NoTurns(before);
      var e := 0;
      while true
        invariant e < |pool| && Valid() && issued == before + ExperimentsEvents(pool[..e])
        invariant experimentCount == old(experimentCount) + e
        decreases |pool| - e
      {
        RunExperiment(pool[e]);
        ExperimentsNext(before, pool, e);
        e := e + 1;
        if e == |pool| {
          break;
        }
      }
      assert pool[..|pool|] == pool;
      PoolAssembled(old(issued), pool);
    }

    method RunTuningStep(step: TuningStep)
      requires Valid() && PossibleStep(step)
      modifies this`state, this`issued, this`experimentCount, this`searchStep, this`tuningStep
      ensures Valid() && issued == old(issued) + TuningStepEvents(step) && tuningStep == old(tuningStep) + 1
      ensures searchStep == old(searchStep) + |step| && experimentCount == old(experimentCount) + |Flat(PoolsOf(step))|
    {
      hide *;
      NoPools();
      Possibly(step);
      ProcessEvent(StartTuningStep);
      ghost var before := issued;
      NoTurns(before);
      var s := 0;
      while true
        invariant s < |step| && tuningStep == old(tuningStep) && Valid()
        invariant issued == before + SearchStepsEvents(step[..s])
        invariant searchStep == old(searchStep) + s
        invariant experimentCount == old(experimentCount) + |Flat(PoolsOf(step[..s]))|
        decreases |step| - s
      {
        RunSearchStep(step[s]);
        SearchStepsNext(before, step, s);
        PoolCountsNext(step, s);
        s := s + 1;
        if s == |step| {
          break;
        }
      }
      assert step[..|step|] == step;
      ProcessEvent(FinishTuningStep);
      TuningStepAssembled(old(issued), step);
      tuningStep := tuningStep + 1;
    }

    /** The loops over tuning steps, from the first event to the last. */
    method RunAnswers(answers: Answers)
      requires Possible(answers)
      modifies this
      ensures Valid() && issued == Events(answers) && tuningStep == |answers| && searchStep == |Flat(answers)|
      ensures experimentCount == |Flat(PoolsOf(Flat(answers)))|
    {
      hide *;
      NoPools();
      AllPossible(answers);
      state, issued, tuningStep, searchStep, experimentCount := Some(InitialState), [], 0, 0, 0;
      Starts();
      ProcessEvent(InitializePlugin);
      ghost var before := issued;
      NoTurns(before);
      var t := 0;
      while true
        invariant t < |answers| && Valid() && issued == before + TuningStepsEvents(answers[..t])
        invariant tuningStep == t && searchStep == |Flat(answers[..t])|
        invariant experimentCount == |Flat(PoolsOf(Flat(answers[..t])))|
        decreases |answers| - t
      {
        RunTuningStep(answers[t]);
        TuningStepsNext(before, answers, t);
        FlatNext(answers, t);
        StepsNext(answers, t);
        t := t + 1;
        if t == |answers| {
          break;
        }
      }
      assert answers[..|answers|] == answers;
      ProcessEvent(CreateTuningAdvice);
      ProcessEvent(FinalizeAutotuning);
      RunAssembled(answers);
    }

    /** Runs the plugin.  The counters go through the whole run: the search steps are not counted
        anew in each tuning step. */
    method RunTuningPlugin(answers: Answers) returns (executed: bool)
      requires Possible(answers)
      modifies this
      ensures issued == Events(answers)
      ensures executed <==> AllFit(answers)
      ensures state == if executed then Some(FinalState) else None
      ensures executed ==>
                && tuningStep == |answers| && searchStep == |Flat(answers)|
                && experimentCount == |Flat(PoolsOf(Flat(answers)))|
      ensures RunsIn([], issued) == RunsOf(Flat(PoolsOf(Flat(answers))))
      ensures multiset(issued)[RunPhaseExperiments] == Sum(RunsOf(Flat(PoolsOf(Flat(answers)))))
      ensures multiset(issued)[DefineExperiment] == multiset(issued)[ConsiderRestart] == |Flat(PoolsOf(Flat(answers)))|
      ensures multiset(issued)[PrepareScenarios] == |PoolsOf(Flat(answers))|
      ensures multiset(issued)[CreateScenarios] == |Flat(answers)|
      ensures multiset(issued)[PerformAnalysis] == Analyses(Flat(answers))
      ensures multiset(issued)[StartTuningStep] == multiset(issued)[FinishTuningStep] == |answers|
    {
      hide *;
      RunAnswers(answers);
      RunTells(answers);
      AcceptedIff(answers);
      Ends();
      executed := state.Some?;
    }

    lemma Starts()
      requires state == Some(InitialState) && issued == []
      ensures Valid()
    {
      NothingYet();
    }

    lemma Ends()
      requires Valid()
      ensures state == After(Some(InitialState), issued)
    {
    }
  }
}
