/** The frontend and one analysis agent connected to it directly: how an experiment is asked for,
    how its outcome is answered, and how the frontend decides what comes next.  Messages travel in
    two FIFO queues.  What the application does, and what the strategy wants, is left open. */
module ContinuationProtocol {
  import opened ProtocolEnds
  import opened ProtocolInvariant
  import opened ProtocolStates
  import opened Sequences

  datatype Decision = Waiting | AskingForProperties | Enforced

  class Session {
    var child: Child
    var plan: Plan
    var loop: Loop
    var agent: Agent
    var toAgent: seq<Request>
    var toFrontend: seq<Message>
    ghost var ledger: Ledger

    ghost function Now(): State
      reads this
    {
      State(child, plan, loop, agent, toAgent, toFrontend, ledger)
    }

    ghost predicate Valid()
      reads this
    {
      Ok(Now())
    }

    constructor (strategyRequestBuffer: seq<int>)
      ensures Now() == Beginning(strategyRequestBuffer)
      ensures Valid()
    {
      child := Child(Initial, Initial, false, false, Undefined);
      plan := Plan(strategyRequestBuffer, false, false, false, false);
      loop := Loop(Startup, true, Searching, 0);
      agent := Agent(false, false, false, []);
      toAgent, toFrontend, ledger := [], [], Ledger([], [], 0, [], 0, 0);
      new;
      BeginningOk(strategyRequestBuffer);
    }

    // ----- the agent ------------------------------------------------------------------------

    /** The agent sends what it has to say. */
    method Send(m: Message)
      modifies this`toFrontend
      ensures toFrontend == old(toFrontend) + [m]
    {
      toFrontend := toFrontend + [m];
    }

    /** An experiment begins, or exactly one answer is sent. */
    method OnStart(newlyFound: seq<Property>, testNeedRestart: bool, delayed: bool)
      requires Accounts(Now()) && !agent.started
      modifies this`toFrontend, this`agent, this`ledger
      ensures Now() == ExperimentBegins(old(Now()), newlyFound, testNeedRestart,
                                        if delayed then SearchFinished else NeedsRestart)
      ensures Accounts(Now()) && agent.started == !testNeedRestart
      ensures toFrontend == old(toFrontend) + if !testNeedRestart then []
                                              else [if delayed then SearchFinished else NeedsRestart]
    {
      hide Accounts;
      BeginningAccounted(Now(), newlyFound, testNeedRestart, if delayed then SearchFinished else NeedsRestart);
      agent := agent.(foundProperties := agent.foundProperties + newlyFound, started := !testNeedRestart);
      ledger := ledger.(found := ledger.found + newlyFound, accepted := ledger.accepted + 1,
                        answered := ledger.answered + if testNeedRestart then 1 else 0);
      if testNeedRestart {
        if delayed {
          Send(SearchFinished);
        } else {
          Send(NeedsRestart);
        }
      }
    }

    method OnStartExperiment(newlyFound: seq<Property>, testNeedRestart: bool)
      requires Accounts(Now()) && !agent.started
      modifies this`toFrontend, this`agent, this`ledger
      ensures Now() == ExperimentBegins(old(Now()), newlyFound, testNeedRestart, NeedsRestart)
      ensures Accounts(Now()) && agent.started == !testNeedRestart
      ensures toFrontend == old(toFrontend) + if testNeedRestart then [NeedsRestart] else []
    {
      hide Accounts;
      BeginningAccounted(Now(), newlyFound, testNeedRestart, NeedsRestart);
      agent := agent.(foundProperties := agent.foundProperties + newlyFound, started := !testNeedRestart);
      ledger := ledger.(found := ledger.found + newlyFound, accepted := ledger.accepted + 1,
                        answered := ledger.answered + if testNeedRestart then 1 else 0);
      if testNeedRestart {
        Send(NeedsRestart);
      }
    }

    /** Sends all properties found so far, and then that these were all. */
    method OnCheck()
      modifies this`toFrontend, this`agent
      ensures toFrontend == old(toFrontend) + Delivery(old(agent.foundProperties))
      ensures agent == old(agent).(foundProperties := [])
      ensures old(Accounts(Now())) ==> Accounts(Now())
      ensures old(toFrontend) == [] ==> IsDelivery(toFrontend)
    {
      var results := agent.foundProperties;
      ghost var before := toFrontend;
      assert results[0..] == results && results[|results|..] == [] && Delivery([]) == [PropertiesSent];
      hide Delivery, IsDelivery, Accounts;
      CheckAccounted(Now());
      for i := 0 to |results|
        invariant agent == old(agent)
        invariant toFrontend + Delivery(results[i..]) == before + Delivery(results)
      {
        DeliveryNext(toFrontend, results, i);
        Send(FoundProp(results[i]));
      }
      agent := agent.(foundProperties := []);
      Send(PropertiesSent);
      assert Now() == AgentHandles(old(Now()), Check, [], false, false);
    }

    /** Looks whether the experiment has ended, and if so answers with what is needed next. */
    method EvaluateExperiment(newlyFound: seq<Property>, stillExecuting: bool, suspendedAtEnd: bool,
                              testNeedRestart: bool, another: bool)
        returns (ended: bool)
      requires Accounts(Now())
      modifies this`toFrontend, this`agent, this`ledger
      ensures Now() == if ended then ExperimentEnds(old(Now()), newlyFound, suspendedAtEnd, testNeedRestart, another)
                       else old(Now())
      ensures Accounts(Now()) && ended == (old(agent.started) && !stillExecuting)
      ensures ended ==> !agent.started && ledger.answered == old(ledger.answered) + 1
      ensures ended && !suspendedAtEnd ==>
                && agent.foundProperties == old(agent.foundProperties) + newlyFound
                && ledger.found == old(ledger.found) + newlyFound
      ensures !ended || suspendedAtEnd ==>
                agent.foundProperties == old(agent.foundProperties) && ledger.found == old(ledger.found)
      ensures ended ==> toFrontend == old(toFrontend) +
                        [if suspendedAtEnd then NeedsRestart
                         else if !another then SearchFinished
                         else if testNeedRestart then NeedsRestart else RequestsExperiment]
    {
      hide Accounts;
      EndAccounted(Now(), newlyFound, suspendedAtEnd, testNeedRestart, another);
      if !agent.started || stillExecuting {
        return false;
      }
      if suspendedAtEnd {
        assert agent.foundProperties + [] == agent.foundProperties && ledger.found + [] == ledger.found;
        agent := agent.(started := false);
        ledger := ledger.(answered := ledger.answered + 1);
        Send(NeedsRestart);
        return true;
      }
      agent := agent.(started := false, foundProperties := agent.foundProperties + newlyFound);
      ledger := ledger.(answered := ledger.answered + 1, found := ledger.found + newlyFound);
      if another {
        if !testNeedRestart {
          Send(RequestsExperiment);
        } else {
          Send(NeedsRestart);
        }
      } else {
        Send(SearchFinished);
      }
      ended := true;
    }

    // ----- the agent's events ---------------------------------------------------------------

    /** The agent comes up and says so. */
    method AgentRun()
      requires Valid() && !agent.heartbeatSent
      modifies this`toFrontend, this`agent
      ensures Now() == After(old(Now()), AgentRuns)
      ensures Valid()
    {
      hide Ok;
      StillOk(Now(), AgentRuns);
      agent := agent.(heartbeatSent := true);
      Send(Heartbeat);
    }

    /** Handles a request that is off the queue. */
    method HandleRequest(request: Request, newlyFound: seq<Property>, testNeedRestart: bool, delayed: bool)
      requires Accounts(Now()) && (AsksForExperiment(request) ==> !agent.started)
      modifies this`toFrontend, this`agent, this`ledger
      ensures Now() == AgentHandles(old(Now()), request, newlyFound, testNeedRestart, delayed)
    {
      hide Accounts, Delivery;
      match request {
        case Start =>
          OnStart(newlyFound, testNeedRestart, delayed);
        case StartExperiment =>
          OnStartExperiment(newlyFound, testNeedRestart);
        case Check =>
          OnCheck();
        case Terminate =>
          Send(Terminated);
        case Reinit =>
          Send(Heartbeat);
        case Quit =>
          agent := agent.(stopped := true);
      }
    }

    /** The agent handles the next request. */
    method AgentReceive(newlyFound: seq<Property>, testNeedRestart: bool, delayed: bool)
      requires Valid() && agent.heartbeatSent && !agent.stopped && toAgent != []
      modifies this`toAgent, this`toFrontend, this`agent, this`ledger
      ensures Now() == After(old(Now()), AgentReceives(newlyFound, testNeedRestart, delayed))
      ensures Valid()
      ensures toAgent == old(toAgent)[1..]
      ensures AsksForExperiment(old(toAgent)[0]) ==>
                agent.started == !testNeedRestart && |toFrontend| == if testNeedRestart then 1 else 0
      ensures old(toAgent)[0].Check? ==>
                && agent.foundProperties == []
                && toFrontend == Delivery(old(agent.foundProperties)) && IsDelivery(toFrontend)
    {
      hide Ok, Accounts, Delivery, IsDelivery;
      RequestMeans(Now());
      StillOk(Now(), AgentReceives(newlyFound, testNeedRestart, delayed));
      DeliveryIs(agent.foundProperties);
      var request := toAgent[0];
      toAgent := toAgent[1..];
      HandleRequest(request, newlyFound, testNeedRestart, delayed);
    }

    /** The agent's timer. */
    method AgentStep(newlyFound: seq<Property>, stillExecuting: bool, suspendedAtEnd: bool, testNeedRestart: bool,
                     another: bool)
      requires Valid()
      modifies this`toFrontend, this`agent, this`ledger
      ensures Now() ==
              After(old(Now()), AgentSteps(newlyFound, stillExecuting, suspendedAtEnd, testNeedRestart, another))
      ensures Valid()
    {
      StillOk(Now(), AgentSteps(newlyFound, stillExecuting, suspendedAtEnd, testNeedRestart, another));
      assert Accounts(Now());
      hide Ok, Accounts;
      var _ := EvaluateExperiment(newlyFound, stillExecuting, suspendedAtEnd, testNeedRestart, another);
    }

    // ----- the frontend's decisions ---------------------------------------------------------

    /** Ends the event loop the frontend is in. */
    method Stop()
      modifies this`loop
      ensures loop == old(loop).(running := false)
    {
      loop := loop.(running := false);
    }

    method QuitFrontend()
      modifies this`plan, this`toAgent, this`loop
      ensures Now() == Quits(old(Now()))
    {
      plan := plan.(quitFe := true);
      toAgent := toAgent + [Quit];
      Stop();
    }

    /** Sends off the strategy request, if there is one. */
    method StartSearch()
      modifies this`toAgent, this`child, this`plan, this`loop, this`ledger
      ensures Now() == NextSearches(old(Now()))
    {
      if |plan.strategyRequestBuffer| == 0 {
        Stop();
        return;
      }
      toAgent := toAgent + [Start];
      ledger := ledger.(asked := ledger.asked + 1);
      child := child.(propertiesSent := false);
      plan := plan.(strategyRequestBuffer := []);
    }

    /** Asks for another experiment. */
    method NextExperiment()
      modifies this`toAgent, this`child, this`ledger
      ensures Now() == NextExperiments(old(Now()))
    {
      child := child.(searchStatus := Undefined);
      toAgent := toAgent + [StartExperiment];
      ledger := ledger.(asked := ledger.asked + 1);
    }

    /** Records that the application has to be restarted. */
    method RequestRestart()
      modifies this`plan, this`child, this`loop
      ensures Now() == AsksForRestart(old(Now()))
    {
      plan := plan.(restartRequested := true, needRestart := true);
      child := child.(applTerminated := false, searchStatus := Undefined, statusReinit := Initial);
      Stop();
    }

    /** What the frontend does once it knows what is needed and has all properties. */
    method EnforceDecision(reinstrumentation: bool)
      modifies this`toAgent, this`child, this`plan, this`loop, this`ledger
      ensures Now() == Enforces(old(Now()), reinstrumentation)
    {
      var search := child.searchStatus;
      child := child.(propertiesSent := false);
      ledger := ledger.(decisions := ledger.decisions + [Decided(ledger.delivered, ledger.found)]);
      if search == ReqExperiment && reinstrumentation {
        search := ReqRestart;
      }
      if search == Finished {
        StartSearch();
      } else if search == ReqExperiment {
        NextExperiment();
      } else if plan.shutdownAllowed {
        QuitFrontend();
      } else {
        RequestRestart();
      }
    }

    /** Asks for the properties if they are not in yet.  Once they are, the decision is enforced: and
        then every property found so far has been delivered, once and in order. */
    method DecideContinuation(reinstrumentation: bool) returns (decision: Decision)
      requires Accounts(Now()) && Idle(Now()) && (child.propertiesSent ==> agent.foundProperties == [])
      modifies this`toAgent, this`child, this`plan, this`loop, this`ledger
      ensures Now() == Continues(old(Now()), reinstrumentation)
      ensures decision == if old(child.searchStatus) == Undefined then Waiting
                          else if old(child.propertiesSent) then Enforced else AskingForProperties
      ensures decision == AskingForProperties ==> toAgent == [Check] && child == old(child)
      ensures decision == Enforced ==> ledger.delivered == ledger.found
      ensures ledger.decisions == old(ledger.decisions) +
                if decision == Enforced then [Decided(ledger.delivered, ledger.found)] else []
      ensures decision == Enforced && old(child.searchStatus) == ReqExperiment && !reinstrumentation ==>
                toAgent == [StartExperiment] && child.searchStatus == Undefined
      ensures decision == Enforced && old(child.searchStatus) == Finished ==>
                if old(plan.strategyRequestBuffer) != [] then toAgent == [Start]
                else !loop.running && !plan.restartRequested && toAgent == []
      ensures decision == Enforced && (old(child.searchStatus) == ReqRestart
                                       || (old(child.searchStatus) == ReqExperiment && reinstrumentation)) ==>
                !loop.running && if plan.shutdownAllowed then plan.quitFe && toAgent == [Quit]
                                 else plan.restartRequested && plan.needRestart && toAgent == []
    {
      assert child.propertiesSent ==> ledger.delivered == ledger.found by {
        NothingSaid();
      }
      hide Accounts;
      plan := plan.(restartRequested := false);
      if child.searchStatus == Undefined {
        return Waiting;
      }
      if !child.propertiesSent {
        toAgent := toAgent + [Check];
        return AskingForProperties;
      }
      EnforceDecision(reinstrumentation);
      decision := Enforced;
    }

    // ----- the frontend's messages ----------------------------------------------------------

    /** The agent is up, for the first time or again. */
    method OnHeartbeat()
      modifies this`child
      ensures child == if old(child.status) == Initial then old(child).(status := Started, propertiesSent := false)
                       else old(child).(statusReinit := Started, propertiesSent := false)
    {
      child := if child.status == Initial then child.(status := Started, propertiesSent := false)
               else child.(statusReinit := Started, propertiesSent := false);
    }

    /** Takes the next message off its queue. */
    method Take() returns (message: Message)
      requires toFrontend != []
      modifies this`toFrontend
      ensures message == old(toFrontend)[0] && toFrontend == old(toFrontend)[1..]
    {
      message := toFrontend[0];
      toFrontend := toFrontend[1..];
    }

    /** An answer: the frontend takes note of it and asks for the properties. */
    method ReceiveAnswer(reinstrumentation: bool) returns (decision: Decision)
      requires Valid() && loop.running && toFrontend != [] && IsAnswer(toFrontend[0])
      modifies this`toFrontend, this`toAgent, this`child, this`plan, this`loop, this`ledger
      ensures Now() == After(old(Now()), FrontendReceives(reinstrumentation))
      ensures Valid() && decision == AskingForProperties && toFrontend == old(toFrontend)[1..] && toAgent == [Check]
      ensures child.searchStatus == StatusOf(old(toFrontend)[0]) && ledger.decisions == old(ledger.decisions)
    {
      hide Ok, Accounts, Enforces;
      MessageMeans(Now());
      StillOk(Now(), FrontendReceives(reinstrumentation));
      var message := Take();
      child := child.(searchStatus := if message.RequestsExperiment? then ReqExperiment
                                      else if message.NeedsRestart? then ReqRestart else Finished);
      AccountsSame(Now(), old(Now()).(toFrontend := toFrontend));
      decision := DecideContinuation(reinstrumentation);
    }

    /** The note that all properties are in: now the frontend decides. */
    method OnPropertiesSent(reinstrumentation: bool) returns (decision: Decision)
      requires Valid() && loop.running && toFrontend != [] && toFrontend[0].PropertiesSent?
      modifies this`toFrontend, this`toAgent, this`child, this`plan, this`loop, this`ledger
      ensures Now() == After(old(Now()), FrontendReceives(reinstrumentation))
      ensures Valid() && decision == Enforced && toFrontend == [] && ledger.delivered == ledger.found
      ensures ledger.decisions == old(ledger.decisions) + [Decided(ledger.delivered, ledger.found)]
      ensures old(child.searchStatus) == ReqExperiment && !reinstrumentation ==>
                toAgent == [StartExperiment] && child.searchStatus == Undefined
      ensures old(child.searchStatus) == Finished ==>
                if old(plan.strategyRequestBuffer) != [] then toAgent == [Start]
                else !loop.running && !plan.restartRequested && toAgent == []
      ensures old(child.searchStatus) == ReqRestart
              || (old(child.searchStatus) == ReqExperiment && reinstrumentation) ==>
                !loop.running && if plan.shutdownAllowed then plan.quitFe && toAgent == [Quit]
                                 else plan.restartRequested && plan.needRestart && toAgent == []
    {
      hide Ok, Accounts, Continues;
      MessageMeans(Now());
      StillOk(Now(), FrontendReceives(reinstrumentation));
      ghost var message := Take();
      child := child.(propertiesSent := true);
      AccountsSame(Now(), old(Now()).(toFrontend := toFrontend));
      decision := DecideContinuation(reinstrumentation);
    }

    method OnFoundProp()
      requires Valid() && loop.running && toFrontend != [] && toFrontend[0].FoundProp?
      modifies this`toFrontend, this`ledger
      ensures forall reinstrumentation :: Now() == After(old(Now()), FrontendReceives(reinstrumentation))
      ensures Valid() && toFrontend == old(toFrontend)[1..]
      ensures ledger == old(ledger).(delivered := old(ledger.delivered) + [old(toFrontend)[0].property])
    {
      hide Ok, Continues;
      StillOk(Now(), FrontendReceives(false));
      var message := Take();
      ledger := ledger.(delivered := ledger.delivered + [message.property]);
    }

    method OnOtherMessage()
      requires Valid() && loop.running && toFrontend != [] && (toFrontend[0].Terminated? || toFrontend[0].Heartbeat?)
      modifies this`toFrontend, this`child
      ensures forall reinstrumentation :: Now() == After(old(Now()), FrontendReceives(reinstrumentation))
      ensures Valid() && toFrontend == old(toFrontend)[1..]
    {
      hide Ok, After;
      StillOk(Now(), FrontendReceives(false));
      NewsHandled(Now());
      var message := Take();
      if message.Terminated? {
        child := child.(applTerminated := true);
      } else {
        OnHeartbeat();
      }
    }

    /** The frontend handles the next message. */
    method FrontendReceive(reinstrumentation: bool) returns (decision: Decision)
      requires Valid() && loop.running && toFrontend != []
      modifies this`toFrontend, this`toAgent, this`child, this`plan, this`loop, this`ledger
      ensures Now() == After(old(Now()), FrontendReceives(reinstrumentation))
      ensures Valid() && toFrontend == old(toFrontend)[1..]
      ensures decision == Enforced <==> old(toFrontend)[0].PropertiesSent?
      ensures decision == Enforced ==> ledger.delivered == ledger.found
      ensures ledger.decisions == old(ledger.decisions) +
                if decision == Enforced then [Decided(ledger.delivered, ledger.found)] else []
      ensures decision == AskingForProperties <==> IsAnswer(old(toFrontend)[0])
    {
      hide Ok, After;
      MessageMeans(Now());
      decision := Waiting;
      var message := toFrontend[0];
      if message.RequestsExperiment? || message.NeedsRestart? || message.SearchFinished? {
        decision := ReceiveAnswer(reinstrumentation);
      } else if message.PropertiesSent? {
        decision := OnPropertiesSent(reinstrumentation);
      } else if message.FoundProp? {
        OnFoundProp();
      } else {
        OnOtherMessage();
      }
    }

    // ----- the frontend's timer and main program --------------------------------------------

    /** Waiting for the agent to come up. */
    method StartupStep(timedOut: bool)
      requires loop.timer == Startup
      modifies this`loop, this`toAgent, this`child, this`plan, this`ledger
      ensures forall unregistered :: Now() == Ticks(old(Now()), unregistered, timedOut)
      ensures if child.status == Started then
                if old(plan.strategyRequestBuffer) != [] then toAgent == old(toAgent) + [Start]
                else toAgent == old(toAgent) && !loop.running
              else if timedOut then toAgent == old(toAgent) + [Quit] && plan.quitFe && !loop.running
              else Now() == old(Now())
    {
      if child.status == Started {
        loop := loop.(timer := NoTimer);
        StartSearch();
      } else if timedOut {
        QuitFrontend();
      }
    }

    /** Waiting for the application to end. */
    method TerminationStep(unregistered: bool, timedOut: bool)
      requires loop.timer == ApplicationTermination
      modifies this`loop, this`toAgent, this`plan
      ensures Now() == Ticks(old(Now()), unregistered, timedOut)
      ensures if child.applTerminated then
                loop.running == (old(loop.running) && !unregistered) && toAgent == old(toAgent)
              else if timedOut then toAgent == old(toAgent) + [Quit] && plan.quitFe && !loop.running
              else Now() == old(Now())
    {
      if child.applTerminated {
        if unregistered {
          loop := loop.(timer := NoTimer, running := false);
        }
      } else if timedOut {
        QuitFrontend();
      }
    }

    /** Waiting for the agent to be ready again. */
    method ReinitStep()
      requires loop.timer == StartupReinit
      modifies this`loop, this`toAgent, this`child, this`ledger
      ensures forall unregistered, timedOut :: Now() == Ticks(old(Now()), unregistered, timedOut)
      ensures if old(child.statusReinit) == Started then toAgent == old(toAgent) + [StartExperiment]
              else Now() == old(Now())
    {
      if child.statusReinit == Started {
        loop := loop.(timer := NoTimer);
        child := child.(propertiesSent := false);
        NextExperiment();
      }
    }

    /** The timer ticks; whether the application has gone from the registry, and whether the time is
        up, is left open. */
    method FrontendTimer(unregistered: bool, timedOut: bool)
      requires Valid() && loop.running
      modifies this`loop, this`toAgent, this`child, this`plan, this`ledger
      ensures Now() == After(old(Now()), FrontendTicks(unregistered, timedOut))
      ensures Valid()
    {
      StillOk(Now(), FrontendTicks(unregistered, timedOut));
      if loop.timer == NoTimer {
        NoTimerNoTick(Now(), unregistered, timedOut);
      }
      hide Ok, Ticks;
      match loop.timer {
        case NoTimer =>
        case Startup => StartupStep(timedOut);
        case ApplicationTermination => TerminationStep(unregistered, timedOut);
        case StartupReinit => ReinitStep();
      }
    }

    /** The application has ended, or was given up: it is started again, and the agent told. */
    method RerunApplication()
      requires loop.stage == Terminating
      modifies this`loop, this`toAgent
      ensures Now() == GoesOn(old(Now()))
    {
      toAgent := toAgent + [Reinit];
      loop := loop.(stage := Reinitializing, running := true, timer := StartupReinit);
    }

    /** The application is to be restarted: first it has to end. */
    method TerminateApplication()
      requires loop.stage != Terminating && Restarts(Now())
      modifies this`loop, this`plan, this`child, this`toAgent
      ensures Now() == GoesOn(old(Now()))
    {
      loop := loop.(stage := Terminating, running := true, timer := ApplicationTermination, runs := loop.runs + 1);
      plan := plan.(shutdownAllowed := loop.runs == MAX_RUNS - 1);
      child := child.(applTerminated := false);
      toAgent := toAgent + [Terminate];
    }

    /** An event loop has ended: the main program restarts the application, or leaves. */
    method MainContinues()
      requires Valid() && !loop.running && loop.stage != Over
      modifies this`loop, this`plan, this`child, this`toAgent
      ensures Now() == After(old(Now()), MainGoesOn)
      ensures Valid()
      ensures loop.runs == old(loop.runs) + if old(loop.stage) != Terminating && loop.stage == Terminating then 1 else 0
      ensures if old(loop.stage) == Terminating then
                loop.stage == Reinitializing && loop.running && toAgent == old(toAgent) + [Reinit]
              else if old(plan.needRestart && loop.runs + 1 < MAX_RUNS && !plan.quitFe && plan.restartRequested) then
                loop.stage == Terminating && loop.running && toAgent == old(toAgent) + [Terminate]
              else
                loop.stage == Over && toAgent == old(toAgent)
    {
      hide Ok;
      StillOk(Now(), MainGoesOn);
      if loop.stage == Terminating {
        RerunApplication();
      } else if plan.needRestart && loop.runs + 1 < MAX_RUNS && !plan.quitFe && plan.restartRequested {
        TerminateApplication();
      } else {
        loop := loop.(stage := Over);
      }
    }

    // ----- whole runs -----------------------------------------------------------------------

    /** One event, if it can happen. */
    method Step(event: Event)
      requires Valid()
      modifies this
      ensures Now() == After(old(Now()), event)
      ensures Valid()
    {
      hide Ok, After;
      NothingHappens(Now(), event);
      match event {
        case AgentRuns =>
          if !agent.heartbeatSent {
            AgentRun();
          }
        case AgentReceives(newlyFound, testNeedRestart, delayed) =>
          if agent.heartbeatSent && !agent.stopped && toAgent != [] {
            AgentReceive(newlyFound, testNeedRestart, delayed);
          }
        case AgentSteps(newlyFound, stillExecuting, suspendedAtEnd, testNeedRestart, another) =>
          AgentStep(newlyFound, stillExecuting, suspendedAtEnd, testNeedRestart, another);
        case FrontendReceives(reinstrumentation) =>
          if loop.running && toFrontend != [] {
            var _ := FrontendReceive(reinstrumentation);
          }
        case FrontendTicks(unregistered, timedOut) =>
          if loop.running {
            FrontendTimer(unregistered, timedOut);
          }
        case MainGoesOn =>
          if !loop.running && loop.stage != Over {
            MainContinues();
          }
      }
    }

    /** Any schedule of events, with any behaviour of application and strategy: what the strategy finds on
        the way has been delivered, is on its way, or waits at the agent, in order; every decision is
        enforced with everything delivered that has been found, and there is one for every
        request for an experiment, but for one that may be under way.  Afterwards the session can still
        come to its end if and only if it could before, and the schedule does not let the application be
        given up. */
    method Run(schedule: seq<Event>)
      requires Valid()
      modifies this
      ensures Now() == AfterAll(old(Now()), schedule)
      ensures Valid()
      ensures forall d :: d in ledger.decisions ==> d.delivered == d.found <= ledger.found
      ensures |ledger.decisions| <= ledger.asked <= |ledger.decisions| + 1
      ensures Asks(toAgent) + (if agent.started then 1 else 0) + Answers(toFrontend) <= 1
      ensures ledger.found == old(ledger.found) + FoundDuring(old(Now()), schedule)
      ensures ledger.found == ledger.delivered + Properties(toFrontend) + agent.foundProperties
      ensures Doomed(Now()) <==> old(Doomed(Now())) || Abandoned(old(Now()), schedule)
      ensures CanEnd(Now()) <==> old(CanEnd(Now())) && !Abandoned(old(Now()), schedule)
    {
      hide Ok, After, AfterAll, Abandoned, Asks, Answers, Doomed, CanEnd;
      DoomedIff(Now(), schedule);
      FoundIs(Now(), schedule);
      CanEndIff(Now());
      ghost var before := Now();
      NoEvents(before, schedule);
      for i := 0 to |schedule|
        invariant Valid() && Now() == AfterAll(before, schedule[..i])
      {
        Step(schedule[i]);
        AfterNext(before, schedule[..i], schedule[i]);
        assert schedule[..i + 1] == schedule[..i] + [schedule[i]];
      }
      assert schedule[..|schedule|] == schedule;
      AtMostOneExperiment(Now());
      CanEndIff(Now());
    }
  }

  /** A run that cannot come to its end any more: the agent needs a restart at once, and the application
      does not end in time. */
  method HangUp() returns (session: Session)
    ensures fresh(session) && session.Valid() && !CanEnd(session.Now())
    ensures session.plan.quitFe && session.loop.running && session.loop.stage == Reinitializing
  {
    hide Ok, AfterAll, Abandoned, CanEnd;
    HangUpAbandons();
    session := new Session([0]);
    session.Run(HANG_UP);
  }
}
