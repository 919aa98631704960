/** When a session can still come to its end. */
module ProtocolEnds {
  import opened ProtocolInvariant
  import opened ProtocolStates
  import opened Sequences

  // ----- giving the application up ----------------------------------------------------------

  /** The frontend has quit, but is in an event loop, or about to enter one. */
  predicate Doomed(s: State) {
    s.plan.quitFe && (s.loop.running || s.loop.stage == Terminating)
  }

  lemma DoomedAfterDecision(s: State, reinstrumentation: bool)
    requires Ok(s) && s.loop.running && s.toFrontend != [] && s.toFrontend[0].PropertiesSent?
    ensures Doomed(After(s, FrontendReceives(reinstrumentation))) <==> Doomed(s)
  {
    AllDelivered(s);
    assert s.child.searchStatus != Undefined && !s.plan.quitFe && s.loop.stage != Terminating;
    hide Ok, ModeOf;
    DecisionHandled(s, reinstrumentation);
    hide After;
  }

  lemma DoomedAfterAnswer(s: State, reinstrumentation: bool)
    requires s.loop.running && !s.child.propertiesSent && s.toFrontend != [] && IsAnswer(s.toFrontend[0])
    ensures Doomed(After(s, FrontendReceives(reinstrumentation))) <==> Doomed(s)
  {
    AnswerHandled(s, reinstrumentation);
    hide After;
  }

  lemma NewsKeepsDoom(s: State, m: Message, reinstrumentation: bool)
    requires m.FoundProp? || m.Terminated?
    ensures Doomed(FrontendHandles(s, m, reinstrumentation)) <==> Doomed(s)
  {
  }

  lemma HeartbeatKeepsDoom(s: State, reinstrumentation: bool)
    ensures Doomed(FrontendHandles(s, Heartbeat, reinstrumentation)) <==> Doomed(s)
  {
    match s.child.status {
      case Initial =>
      case Started =>
    }
  }

  lemma DoomedAfterMessage(s: State, reinstrumentation: bool)
    requires Ok(s) && s.loop.running && s.toFrontend != []
    ensures Doomed(After(s, FrontendReceives(reinstrumentation))) <==> Doomed(s)
  {
    assert !s.child.propertiesSent;
    hide Ok, ModeOf, FrontendHandles, Doomed;
    if s.toFrontend[0].PropertiesSent? {
      hide After;
      DoomedAfterDecision(s, reinstrumentation);
    } else if IsAnswer(s.toFrontend[0]) {
      hide After;
      DoomedAfterAnswer(s, reinstrumentation);
    } else {
      var u := s.(toFrontend := s.toFrontend[1..]);
      if s.toFrontend[0].Heartbeat? {
        HeartbeatKeepsDoom(u, reinstrumentation);
      } else {
        NewsKeepsDoom(u, s.toFrontend[0], reinstrumentation);
      }
      SameDoom(s, u);
    }
  }

  lemma SameDoom(s: State, t: State)
    requires t.plan.quitFe == s.plan.quitFe && t.loop.running == s.loop.running && t.loop.stage == s.loop.stage
    ensures Doomed(t) <==> Doomed(s)
  {
  }

  lemma DoomedAfterTick(s: State, unregistered: bool, timedOut: bool)
    requires Ok(s) && s.loop.running
    ensures Doomed(Ticks(s, unregistered, timedOut)) <==>
              Doomed(s) || Abandons(s, FrontendTicks(unregistered, timedOut))
  {
    if s.plan.quitFe {
      StuckTimer(s);
      hide Ok;
    } else {
      assert s.loop.timer == Startup ==> s.loop.stage == Searching;
      assert s.loop.timer == ApplicationTermination <==> s.loop.stage == Terminating;
      hide Ok;
    }
  }

  lemma DoomedOutside(s: State)
    requires !s.loop.running && s.loop.stage != Over
    ensures Doomed(GoesOn(s)) <==> Doomed(s)
  {
    if s.loop.stage == Terminating {
    } else if Restarts(s) {
    } else {
    }
  }

  lemma HandlingKeepsDoom(s: State, r: Request, newlyFound: seq<Property>, testNeedRestart: bool, delayed: bool)
    ensures Doomed(AgentHandles(s, r, newlyFound, testNeedRestart, delayed)) <==> Doomed(s)
  {
    match r {
      case Start =>
      case StartExperiment =>
      case Check =>
      case Terminate =>
      case Reinit =>
      case Quit =>
    }
  }

  lemma EndingKeepsDoom(s: State, newlyFound: seq<Property>, suspendedAtEnd: bool, testNeedRestart: bool, another: bool)
    ensures Doomed(ExperimentEnds(s, newlyFound, suspendedAtEnd, testNeedRestart, another)) <==> Doomed(s)
  {
  }

  /** Nothing the agent does dooms the session, or saves it. */
  lemma AgentKeepsDoom(s: State, event: Event)
    requires event.AgentRuns? || event.AgentReceives? || event.AgentSteps?
    ensures Doomed(After(s, event)) <==> Doomed(s)
  {
    hide AgentHandles, ExperimentEnds;
    match event {
      case AgentRuns =>
        if s.agent.heartbeatSent {
        } else {
        }
      case AgentReceives(newlyFound, testNeedRestart, delayed) =>
        if s.agent.heartbeatSent && !s.agent.stopped && s.toAgent != [] {
          HandlingKeepsDoom(s.(toAgent := s.toAgent[1..]), s.toAgent[0], newlyFound, testNeedRestart, delayed);
        }
      case AgentSteps(newlyFound, stillExecuting, suspendedAtEnd, testNeedRestart, another) =>
        if s.agent.started && !stillExecuting {
          EndingKeepsDoom(s, newlyFound, suspendedAtEnd, testNeedRestart, another);
        } else {
        }
    }
  }

  /** A session is doomed exactly by giving up an application that has not ended, and for good. */
  lemma DoomedAfter(s: State, event: Event)
    requires Ok(s)
    ensures Doomed(After(s, event)) <==> Doomed(s) || Abandons(s, event)
  {
    hide Ok, GoesOn, Ticks, FrontendHandles, AgentHandles, ExperimentEnds;
    match event {
      case FrontendReceives(reinstrumentation) =>
        if s.loop.running && s.toFrontend != [] {
          DoomedAfterMessage(s, reinstrumentation);
        }
      case FrontendTicks(unregistered, timedOut) =>
        if s.loop.running {
          DoomedAfterTick(s, unregistered, timedOut);
        }
      case MainGoesOn =>
        if !s.loop.running && s.loop.stage != Over {
          DoomedOutside(s);
        }
      case _ =>
        hide After;
        AgentKeepsDoom(s, event);
    }
  }

  /** Over whole schedules, too: a session is doomed if and only if it was, or its schedule gives the
      application up. */
  lemma {:induction false} DoomedIff(s: State, schedule: seq<Event>)
    requires Ok(s)
    ensures Ok(AfterAll(s, schedule))
    ensures Doomed(AfterAll(s, schedule)) <==> Doomed(s) || Abandoned(s, schedule)
  {
    hide Ok, Doomed, Abandons, After;
    if schedule != [] {
      DoomedIff(s, Init(schedule));
      StillOk(AfterAll(s, Init(schedule)), Last(schedule));
      DoomedAfter(AfterAll(s, Init(schedule)), Last(schedule));
    }
  }

  lemma DoomedIsNotOver(s: State)
    requires Ok(s) && Doomed(s)
    ensures s.loop.stage != Over
  {
  }

  // ----- the way to the end -----------------------------------------------------------------

  /** An event that brings the session closer to its end. */
  function Homeward(s: State): Event {
    if !s.loop.running then MainGoesOn
    else if s.toFrontend != [] then FrontendReceives(false)
    else if s.toAgent != [] then AgentReceives([], false, false)
    else if s.agent.started then AgentSteps([], false, false, false, false)
    else FrontendTicks(true, true)
  }

  /** How far it is from a request for an experiment, if the agent then says it has finished. */
  function FromRequest(strategyRequestBuffer: seq<int>): nat {
    if strategyRequestBuffer == [] then 7 else 13
  }

  /** How far it is from a decision. */
  function FromDecision(strategyRequestBuffer: seq<int>, needed: SearchStatus): nat {
    match needed
    case Finished => if strategyRequestBuffer == [] then 1 else 7
    case ReqExperiment => FromRequest(strategyRequestBuffer)
    case _ => FromRequest(strategyRequestBuffer) + 9
  }

  /** How far it is to the end. */
  function Distance(s: State): nat {
    if s.loop.stage == Over then 0
    else if !s.loop.running && s.loop.stage != Terminating && !Restarts(s) then 1
    else |s.agent.foundProperties| + Steps(s)
  }

  function Steps(s: State): nat {
    var buffer := s.plan.strategyRequestBuffer;
    if !s.loop.running then FromRequest(buffer) + if s.loop.stage == Terminating then 4 else 9
    else match s.loop.timer
      case Startup => if s.child.status == Started then 8 else 9 + |s.toFrontend|
      case ApplicationTermination =>
        FromRequest(buffer) + if s.child.applTerminated then 5 else if s.toAgent == [] then 6 else 7
      case StartupReinit =>
        FromRequest(buffer) + if s.child.statusReinit == Started then 1 else if s.toAgent == [] then 2 else 3
      case NoTimer =>
        if s.toFrontend != [] then
          if IsAnswer(s.toFrontend[0]) then FromDecision(buffer, StatusOf(s.toFrontend[0])) + 4
          else FromDecision(buffer, s.child.searchStatus) + |s.toFrontend|
        else if s.toAgent == [Check] then FromDecision(buffer, s.child.searchStatus) + 2
        else if s.agent.started then FromDecision(buffer, Finished) + 5
        else FromRequest(buffer)
  }

  // Each step of the way home, by where the session is.

  /** The event that leads home does. */
  ghost predicate Nears(s: State) {
    Distance(After(s, Homeward(s))) < Distance(s) && !Abandons(s, Homeward(s))
  }

  lemma CloserLeaving(s: State)
    requires !s.loop.running && s.loop.stage != Over && s.loop.stage != Terminating && !Restarts(s)
    ensures Nears(s)
  {
  }

  lemma CloserStopped(s: State)
    requires !s.loop.running && s.loop.stage != Over && s.loop.stage != Terminating && Restarts(s)
    ensures Nears(s)
  {
  }

  lemma CloserEnded(s: State)
    requires !s.loop.running && s.loop.stage == Terminating
    ensures Nears(s)
  {
  }

  lemma CloserAsked(s: State)
    requires Search(s) && !s.agent.started && !s.agent.stopped && s.toFrontend == []
    requires s.toAgent == [Start] || s.toAgent == [StartExperiment]
    ensures Nears(s)
  {
    assert s.toAgent[1..] == [] && s.toFrontend + [] == s.toFrontend;
  }

  lemma CloserRunning(s: State)
    requires Search(s) && s.agent.started && s.toFrontend == [] && s.toAgent == []
    ensures Nears(s)
  {
  }

  lemma CloserChecking(s: State)
    requires Search(s) && !s.agent.started && !s.agent.stopped && s.toFrontend == [] && s.toAgent == [Check]
    ensures Nears(s)
  {
    hide After, Delivery, IsDelivery, IsAnswer, FromDecision, Properties;
    CheckHandled(s, [], false, false);
    DeliveryIs(s.agent.foundProperties);
    var fromDecision := FromDecision(s.plan.strategyRequestBuffer, s.child.searchStatus);
    assert Steps(Checked(s)) == fromDecision + |Delivery(s.agent.foundProperties)|;
  }

  lemma CloserAnswered(s: State)
    requires Search(s) && s.toAgent == [] && !s.child.propertiesSent && |s.toFrontend| == 1 && IsAnswer(s.toFrontend[0])
    ensures Nears(s)
  {
    AnswerHandled(s, false);
    assert s.toFrontend[1..] == [] && s.toAgent + [Check] == [Check];
    hide After;
  }

  lemma CloserFound(s: State)
    requires Search(s) && IsDelivery(s.toFrontend) && s.toFrontend[0].FoundProp?
    ensures Nears(s)
  {
    assert s.toFrontend[1..] != [] && !IsAnswer(s.toFrontend[1..][0]);
  }

  lemma CloserDecided(s: State)
    requires Search(s) && s.toAgent == [] && !s.agent.started && s.toFrontend == [PropertiesSent]
    requires s.agent.foundProperties == [] && s.child.searchStatus != Undefined
    ensures Nears(s)
  {
    DecisionHandled(s, false);
    assert s.toFrontend[1..] == [] && [Start] != [Check] && [StartExperiment] != [Check] by {
      assert [Start][0] != [Check][0] && [StartExperiment][0] != [Check][0];
    }
    hide After;
  }

  lemma CloserBooting(s: State)
    requires IsBooting(s) && s.loop.running && s.loop.timer == Startup && !s.plan.quitFe
    ensures Nears(s)
  {
    match s.child.status {
      case Started =>
        assert [Start][0] != [Check][0];
      case Initial =>
    }
  }

  lemma CloserShuttingDown(s: State)
    requires IsShuttingDown(s) && s.loop.running && s.loop.timer == ApplicationTermination
    requires !s.plan.quitFe && !s.agent.stopped
    ensures Nears(s)
  {
  }

  lemma CloserRestarting(s: State)
    requires IsRestarting(s) && s.loop.running && s.loop.timer == StartupReinit && !s.plan.quitFe && !s.agent.stopped
    ensures Nears(s)
  {
    assert [StartExperiment][0] != [Check][0];
    match s.child.statusReinit {
      case Started =>
        assert s.toAgent + [StartExperiment] == [StartExperiment];
      case Initial =>
    }
  }

  lemma Closer(s: State)
    requires Ok(s) && !Doomed(s) && s.loop.stage != Over
    ensures Nears(s)
  {
    var m := ModeOf(s);
    if m == Delivering && s.toFrontend[0].PropertiesSent? {
      AllDelivered(s);
    }
    hide Nears, IsDelivery, Answers, Properties, Booked, Accounts;
    if !s.loop.running {
      if s.loop.stage == Terminating {
        CloserEnded(s);
      } else if Restarts(s) {
        CloserStopped(s);
      } else {
        CloserLeaving(s);
      }
    } else {
      match m {
        case Booting => CloserBooting(s);
        case Asked => CloserAsked(s);
        case Experimenting => CloserRunning(s);
        case Checking => CloserChecking(s);
        case Answered => CloserAnswered(s);
        case Delivering =>
          if s.toFrontend[0].PropertiesSent? {
            CloserDecided(s);
          } else {
            ModeOfMessage(s);
            CloserFound(s);
          }
        case ShuttingDown => CloserShuttingDown(s);
        case Restarting => CloserRestarting(s);
      }
    }
  }

  /** A schedule that ends the session. */
  lemma {:induction false} WayHome(s: State) returns (schedule: seq<Event>)
    requires Ok(s) && !Doomed(s)
    ensures AfterAll(s, schedule).loop.stage == Over
    decreases Distance(s)
  {
    hide Ok, Doomed, Abandons, After, Homeward, Distance;
    if s.loop.stage == Over {
      schedule := [];
    } else {
      var event := Homeward(s);
      Closer(s);
      StillOk(s, event);
      DoomedAfter(s, event);
      var rest := WayHome(After(s, event));
      AfterFirst(s, event, rest);
      schedule := [event] + rest;
    }
  }

  ghost predicate CanEnd(s: State) {
    exists schedule :: AfterAll(s, schedule).loop.stage == Over
  }

  /** A session can come to its end if and only if it is not doomed. */
  lemma CanEndIff(s: State)
    requires Ok(s)
    ensures CanEnd(s) <==> !Doomed(s)
  {
    if Doomed(s) {
      forall schedule
        ensures AfterAll(s, schedule).loop.stage != Over
      {
        DoomedIff(s, schedule);
        DoomedIsNotOver(AfterAll(s, schedule));
      }
    } else {
      var schedule := WayHome(s);
    }
  }

  /** So after any schedule, from the beginning: it can if and only if the application was never given
      up on the way. */
  lemma CanStillEndIff(strategyRequestBuffer: seq<int>, schedule: seq<Event>)
    ensures CanEnd(AfterAll(Beginning(strategyRequestBuffer), schedule)) <==>
              !Abandoned(Beginning(strategyRequestBuffer), schedule)
  {
    var s := Beginning(strategyRequestBuffer);
    BeginningOk(strategyRequestBuffer);
    DoomedIff(s, schedule);
    hide Ok, AfterAll, Abandoned, CanEnd;
    CanEndIff(AfterAll(s, schedule));
  }

  /** The agent needs a restart at once, and the application does not end in time. */
  const HANG_UP: seq<Event> := [
    AgentRuns, FrontendReceives(false), FrontendTicks(false, false), AgentReceives([], true, false),
    FrontendReceives(false), AgentReceives([], false, false), FrontendReceives(false), MainGoesOn,
    FrontendTicks(false, true), MainGoesOn]

  /** The states on that way. */
  ghost function HangUpState(k: nat): State
    requires k <= 10
  {
    var up := Child(Started, Initial, false, false, if k < 5 || k > 6 then Undefined else ReqRestart);
    if k == 0 then Beginning([0])
    else if k < 3 then
      State(Child(if k == 1 then Initial else Started, Initial, false, false, Undefined),
            Plan([0], false, false, false, false), Loop(Startup, true, Searching, 0), Agent(true, false, false, []),
            [], if k == 1 then [Heartbeat] else [], Ledger([], [], 0, [], 0, 0))
    else if k < 7 then
      State(up, Plan([], false, false, false, false), Loop(NoTimer, true, Searching, 0), Agent(true, false, false, []),
            if k == 3 then [Start] else if k == 5 then [Check] else [],
            if k == 4 then [NeedsRestart] else if k == 6 then [PropertiesSent] else [],
            if k == 3 then Ledger([], [], 1, [], 0, 0) else Ledger([], [], 1, [], 1, 1))
    else
      State(up, Plan([], true, true, false, k > 8),
            if k == 7 then Loop(NoTimer, false, Searching, 0)
            else if k == 8 then Loop(ApplicationTermination, true, Terminating, 1)
            else if k == 9 then Loop(ApplicationTermination, false, Terminating, 1)
            else Loop(StartupReinit, true, Reinitializing, 1),
            Agent(true, false, false, []),
            if k == 7 then [] else if k == 8 then [Terminate]
            else if k == 9 then [Terminate, Quit] else [Terminate, Quit, Reinit],
            [], Ledger([], [Decided([], [])], 1, [], 1, 1))
  }

  lemma HangUpStep(k: nat)
    requires k < 10
    ensures After(HangUpState(k), HANG_UP[k]) == HangUpState(k + 1)
  {
    if k < 3 {
      HangUpBoots(k);
    } else if k < 7 {
      HangUpAsks(k);
    } else {
      HangUpRestarts(k);
    }
  }

  lemma HangUpBoots(k: nat)
    requires k < 3
    ensures After(HangUpState(k), HANG_UP[k]) == HangUpState(k + 1)
  {
    assert [] + [Heartbeat] == [Heartbeat] && [Heartbeat][1..] == [];
    if k == 0 {
    } else if k == 1 {
    } else {
      assert [] + [Start] == [Start];
    }
  }

  lemma HangUpAsks(k: nat)
    requires 3 <= k < 7
    ensures After(HangUpState(k), HANG_UP[k]) == HangUpState(k + 1)
  {
    var s := HangUpState(k);
    if k == 3 {
      assert s.toAgent[1..] == [] && [] + [NeedsRestart] == [NeedsRestart];
    } else if k == 4 {
      AnswerHandled(s, false);
      hide After;
      assert s.toFrontend[1..] == [] && [] + [Check] == [Check];
    } else if k == 5 {
      CheckHandled(s, [], false, false);
      hide After;
    } else {
      DecisionHandled(s, false);
      hide After;
      assert s.toFrontend[1..] == [] && [] + [Decided([], [])] == [Decided([], [])];
    }
  }

  lemma HangUpRestarts(k: nat)
    requires 7 <= k < 10
    ensures After(HangUpState(k), HANG_UP[k]) == HangUpState(k + 1)
  {
    if k == 7 {
      assert [] + [Terminate] == [Terminate];
    } else if k == 8 {
      assert [Terminate] + [Quit] == [Terminate, Quit];
    } else {
      assert [Terminate, Quit] + [Reinit] == [Terminate, Quit, Reinit];
    }
  }

  lemma {:induction false} HangUpGoes(k: nat)
    requires k <= 10
    ensures AfterAll(Beginning([0]), HANG_UP[..k]) == HangUpState(k)
  {
    hide After, Abandoned, Abandons;
    if k == 0 {
      NoEvents(Beginning([0]), HANG_UP);
    } else {
      HangUpGoes(k - 1);
      HangUpStep(k - 1);
      AfterPrefix(Beginning([0]), HANG_UP, k - 1);
    }
  }

  lemma HangUpAbandons()
    ensures Abandoned(Beginning([0]), HANG_UP)
    ensures var t := AfterAll(Beginning([0]), HANG_UP);
            t.plan.quitFe && t.loop.running && t.loop.stage == Reinitializing
  {
    var s := Beginning([0]);
    assert Abandons(HangUpState(8), HANG_UP[8]);
    hide AfterAll, Abandons, After, Abandoned;
    HangUpGoes(8);
    HangUpGoes(10);
    AfterPrefix(s, HANG_UP, 8);
    AfterPrefix(s, HANG_UP, 9);
    assert HANG_UP[..10] == HANG_UP;
  }
}
