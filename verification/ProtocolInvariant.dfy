/** What holds in every state that frontend and agent can reach. */
module ProtocolInvariant {
  import opened ProtocolStates

  // ----- counting messages ------------------------------------------------------------------

  ghost function Properties(ms: seq<Message>): seq<Property> {
    if ms == [] then []
    else (if ms[0].FoundProp? then [ms[0].property] else []) + Properties(ms[1..])
  }

  ghost function Answers(ms: seq<Message>): nat {
    if ms == [] then 0 else (if IsAnswer(ms[0]) then 1 else 0) + Answers(ms[1..])
  }

  ghost function Asks(rs: seq<Request>): nat {
    if rs == [] then 0 else (if AsksForExperiment(rs[0]) then 1 else 0) + Asks(rs[1..])
  }

  lemma {:induction false} PropertiesAppend(a: seq<Message>, b: seq<Message>)
    ensures Properties(a + b) == Properties(a) + Properties(b)
  {
    if a == [] {
      assert a + b == b;
    } else {
      var first := if a[0].FoundProp? then [a[0].property] else [];
      PropertiesAppend(a[1..], b);
      assert (a + b)[0] == a[0] && (a + b)[1..] == a[1..] + b;
      assert first + (Properties(a[1..]) + Properties(b)) == (first + Properties(a[1..])) + Properties(b);
    }
  }

  lemma {:induction false} AnswersAppend(a: seq<Message>, b: seq<Message>)
    ensures Answers(a + b) == Answers(a) + Answers(b)
  {
    if a == [] {
      assert a + b == b;
    } else {
      AnswersAppend(a[1..], b);
      assert (a + b)[0] == a[0] && (a + b)[1..] == a[1..] + b;
    }
  }

  /** A delivery: properties, and then the note that these were all. */
  ghost predicate IsDelivery(ms: seq<Message>) {
    && ms != [] && ms[|ms| - 1] == PropertiesSent
    && forall k :: 0 <= k < |ms| - 1 ==> ms[k].FoundProp?
  }

  lemma {:induction false} DeliveryHasNoAnswer(ms: seq<Message>)
    requires IsDelivery(ms)
    ensures Answers(ms) == 0
  {
    if |ms| > 1 {
      DeliveryHasNoAnswer(ms[1..]);
    }
  }

  /** The agent gets to hear of the end before it could be set up again. */
  ghost predicate QuitBeforeReinit(rs: seq<Request>) {
    rs == [] || rs[0].Quit? || (!rs[0].Reinit? && QuitBeforeReinit(rs[1..]))
  }

  /** Requests that have nothing to do with an experiment. */
  ghost predicate Aside(rs: seq<Request>) {
    forall k :: 0 <= k < |rs| ==> rs[k].Terminate? || rs[k].Quit? || rs[k].Reinit?
  }

  lemma {:induction false} AsideAsksNothing(rs: seq<Request>)
    requires Aside(rs)
    ensures Asks(rs) == 0
  {
    if rs != [] {
      AsideAsksNothing(rs[1..]);
    }
  }

  lemma {:induction false} RequestsAppend(a: seq<Request>, b: seq<Request>)
    ensures Asks(a + b) == Asks(a) + Asks(b)
    ensures QuitBeforeReinit(a) && QuitBeforeReinit(b) ==> QuitBeforeReinit(a + b)
    ensures QuitBeforeReinit(a) && (exists k :: 0 <= k < |a| && a[k].Quit?) ==> QuitBeforeReinit(a + b)
  {
    if a == [] {
      assert a + b == b;
    } else {
      RequestsAppend(a[1..], b);
      assert (a + b)[1..] == a[1..] + b;
      if exists k :: 0 <= k < |a| && a[k].Quit? {
        var k :| 0 <= k < |a| && a[k].Quit?;
        assert k > 0 ==> a[1..][k - 1].Quit?;
      }
    }
  }

  lemma DeliveryNext(before: seq<Message>, ps: seq<Property>, i: nat)
    requires i < |ps|
    ensures before + Delivery(ps[i..]) == before + [FoundProp(ps[i])] + Delivery(ps[i + 1..])
  {
    assert ps[i..][1..] == ps[i + 1..];
  }

  lemma {:induction false} DeliveryIs(ps: seq<Property>)
    ensures |Delivery(ps)| == |ps| + 1 && IsDelivery(Delivery(ps)) && !IsAnswer(Delivery(ps)[0])
    ensures Properties(Delivery(ps)) == ps
  {
    if ps == [] {
      assert [PropertiesSent][1..] == [];
    } else {
      DeliveryIs(ps[1..]);
      var rest := Delivery(ps[1..]);
      assert Delivery(ps)[1..] == rest;
      forall k | 0 <= k < |rest|
        ensures Delivery(ps)[k + 1] == rest[k]
      {
      }
    }
  }

  lemma QuitLast(rs: seq<Request>)
    requires rs == [] || rs == [Terminate]
    ensures QuitBeforeReinit(rs + [Quit]) && Aside(rs + [Quit]) && (rs + [Quit])[|rs|].Quit?
  {
    assert ([Terminate] + [Quit])[1..] == [Quit];
  }

  lemma MessagesTail(ms: seq<Message>)
    requires ms != []
    ensures Answers(ms[1..]) == Answers(ms) - if IsAnswer(ms[0]) then 1 else 0
    ensures Properties(ms) == (if ms[0].FoundProp? then [ms[0].property] else []) + Properties(ms[1..])
  {
  }

  lemma NothingSaid()
    ensures Answers([]) == 0 && Answers([Heartbeat]) == 0 && Answers([Terminated]) == 0 && Properties([]) == []
    ensures QuitBeforeReinit([Quit]) && QuitBeforeReinit([Terminate, Quit])
  {
    assert [Heartbeat][1..] == [] && [Terminated][1..] == [] && [Terminate, Quit][1..] == [Quit];
  }

  lemma RequestsTail(rs: seq<Request>)
    requires rs != []
    ensures Asks(rs[1..]) == Asks(rs) - if AsksForExperiment(rs[0]) then 1 else 0
    ensures QuitBeforeReinit(rs) ==> rs[0].Quit? || (!rs[0].Reinit? && QuitBeforeReinit(rs[1..]))
    ensures (exists k :: 0 <= k < |rs| && rs[k].Quit?) ==>
              rs[0].Quit? || exists k :: 0 <= k < |rs[1..]| && rs[1..][k].Quit?
  {
    if exists k :: 0 <= k < |rs| && rs[k].Quit? {
      var k :| 0 <= k < |rs| && rs[k].Quit?;
      assert k > 0 ==> rs[1..][k - 1].Quit?;
    }
  }

  // ----- what holds between events ----------------------------------------------------------

  /** Where the one activity of the protocol is. */
  datatype Mode =
    | Booting | Asked | Experimenting | Answered | Checking | Delivering | Stopped
    | ShuttingDown | Restarting | Quitting | Left

  /** From the request for an experiment to the decision about its outcome. */
  ghost predicate UnderWay(mode: Mode) {
    mode.Asked? || InHand(mode)
  }

  /** The agent has accepted the request. */
  ghost predicate InHand(mode: Mode) {
    mode.Experimenting? || mode.Answered? || mode.Checking? || mode.Delivering?
  }

  /** Where a session is. */
  ghost function ModeOf(s: State): Mode {
    if s.loop.stage == Over then Left
    else if s.plan.quitFe then Quitting
    else if !s.loop.running then if s.loop.stage == Terminating then ShuttingDown else Stopped
    else match s.loop.timer
      case Startup => Booting
      case ApplicationTermination => ShuttingDown
      case StartupReinit => Restarting
      case NoTimer =>
        if s.agent.started then Experimenting
        else if s.toFrontend != [] then if IsAnswer(s.toFrontend[0]) then Answered else Delivering
        else if s.toAgent == [Check] then Checking else Asked
  }

  /** Nothing is lost, duplicated or reordered: what was found is what was delivered, is on its
      way, or waits at the agent; and every accepted request for an experiment has been answered
      once, except for the experiment that runs. */
  ghost predicate Accounts(s: State) {
    && s.ledger.found == s.ledger.delivered + Properties(s.toFrontend) + s.agent.foundProperties
    && s.ledger.accepted == s.ledger.answered + if s.agent.started then 1 else 0
  }

  ghost predicate Idle(s: State) {
    s.toAgent == [] && s.toFrontend == [] && !s.agent.started
  }

  ghost predicate Search(s: State) {
    && s.loop.running && s.loop.timer == NoTimer && (s.loop.stage == Searching || s.loop.stage == Reinitializing)
    && s.agent.heartbeatSent && s.child.status == Started && !s.plan.quitFe
  }

  ghost predicate InMode(s: State) {
    match ModeOf(s)
    case Booting => IsBooting(s)
    case Asked => Search(s) && (s.toAgent == [Start] || s.toAgent == [StartExperiment])
    case Experimenting => Search(s) && s.toFrontend == [] && s.toAgent == []
    case Answered => Search(s) && s.toAgent == [] && |s.toFrontend| == 1
    case Checking => Search(s) && s.child.searchStatus != Undefined
    case Delivering => IsDelivering(s)
    case Stopped => IsStopped(s)
    case ShuttingDown => IsShuttingDown(s)
    case Restarting => IsRestarting(s)
    case Quitting => IsQuitting(s)
    case Left => IsLeft(s)
  }

  ghost predicate IsBooting(s: State) {
    && s.toAgent == [] && !s.agent.started && s.loop.stage == Searching && !s.plan.restartRequested
    && (if s.child.status == Started then s.agent.heartbeatSent && s.toFrontend == []
        else s.toFrontend == if s.agent.heartbeatSent then [Heartbeat] else [])
  }

  ghost predicate IsDelivering(s: State) {
    && Search(s) && s.toAgent == [] && IsDelivery(s.toFrontend)
    && s.agent.foundProperties == [] && s.child.searchStatus != Undefined
  }

  ghost predicate IsStopped(s: State) {
    && Idle(s) && s.loop.timer == NoTimer && s.agent.heartbeatSent && s.child.status == Started
    && (s.plan.restartRequested ==>
          && s.plan.needRestart && !s.plan.shutdownAllowed
          && !s.child.applTerminated && s.child.statusReinit == Initial && s.child.searchStatus == Undefined)
  }

  ghost predicate IsShuttingDown(s: State) {
    && s.loop.stage == Terminating && !s.agent.started && s.agent.heartbeatSent
    && s.child.status == Started && s.child.statusReinit == Initial && s.child.searchStatus == Undefined
    && (s.loop.running || s.child.applTerminated)
    && (if s.child.applTerminated then Idle(s)
        else (s.toAgent == [Terminate] && s.toFrontend == []) || (s.toAgent == [] && s.toFrontend == [Terminated]))
  }

  ghost predicate IsRestarting(s: State) {
    && s.loop.stage == Reinitializing && !s.agent.started && s.agent.heartbeatSent
    && s.child.status == Started && s.child.searchStatus == Undefined
    && (if s.child.statusReinit == Started then Idle(s)
        else (s.toAgent == [Reinit] && s.toFrontend == []) || (s.toAgent == [] && s.toFrontend == [Heartbeat]))
  }

  ghost predicate IsQuitting(s: State) {
    && !s.agent.started && Aside(s.toAgent) && Answers(s.toFrontend) == 0
    && (s.loop.stage == Terminating || s.loop.running ==> HangingUp(s))
  }

  /** The application did not end in time: the agent is told to quit, and though the frontend
      goes on as if it restarted, it will not hear from the agent again. */
  ghost predicate HangingUp(s: State) {
    && s.loop.stage != Searching && s.agent.heartbeatSent
    && s.child.status == Started && s.child.statusReinit == Initial
    && (s.agent.stopped || (QuitBeforeReinit(s.toAgent) && exists k :: 0 <= k < |s.toAgent| && s.toAgent[k].Quit?))
    && (forall k :: 0 <= k < |s.toFrontend| ==> s.toFrontend[k].Terminated?)
    && (s.loop.running ==> s.loop.timer == StartupReinit && s.loop.stage == Reinitializing)
  }

  ghost predicate IsLeft(s: State) {
    && !s.loop.running && !s.agent.started && Aside(s.toAgent) && Answers(s.toFrontend) == 0
    && (s.plan.quitFe || s.toAgent == [])
  }

  /** Every decision was enforced with everything delivered that had been found; and there was one
      for every request for an experiment, but for the `open` ones, of which the agent has accepted
      the `inHand` ones. */
  ghost predicate Booked(s: State, open: nat, inHand: nat) {
    && (forall d :: d in s.ledger.decisions ==> d.found == d.delivered <= s.ledger.delivered)
    && s.ledger.asked == |s.ledger.decisions| + open && s.ledger.accepted == |s.ledger.decisions| + inHand
  }

  ghost predicate Books(s: State) {
    Booked(s, if UnderWay(ModeOf(s)) then 1 else 0, if InHand(ModeOf(s)) then 1 else 0)
  }

  ghost predicate Common(s: State) {
    && !s.child.propertiesSent && s.loop.runs < MAX_RUNS && (s.plan.shutdownAllowed <==> s.loop.runs == MAX_RUNS - 1)
    && (s.agent.stopped ==> s.plan.quitFe)
  }

  /** What holds in every state a session can be in. */
  ghost predicate Ok(s: State) {
    Common(s) && Accounts(s) && Books(s) && InMode(s)
  }

  lemma BeginningOk(strategyRequestBuffer: seq<int>)
    ensures Ok(Beginning(strategyRequestBuffer))
  {
  }

  // ----- every event keeps it ---------------------------------------------------------------

  /** One more message on its way. */
  lemma Sends(ms: seq<Message>, m: Message)
    ensures Properties(ms + [m]) == Properties(ms) + (if m.FoundProp? then [m.property] else [])
    ensures Answers(ms + [m]) == Answers(ms) + if IsAnswer(m) then 1 else 0
  {
    PropertiesAppend(ms, [m]);
    AnswersAppend(ms, [m]);
    assert [m][1..] == [];
  }

  lemma BeginningAccounted(s: State, newlyFound: seq<Property>, testNeedRestart: bool, answer: Message)
    requires Accounts(s) && !s.agent.started && IsAnswer(answer)
    ensures Accounts(ExperimentBegins(s, newlyFound, testNeedRestart, answer))
  {
    Sends(s.toFrontend, answer);
    hide Properties;
    assert s.toFrontend + [] == s.toFrontend;
  }

  lemma EndAccounted(s: State, newlyFound: seq<Property>, suspendedAtEnd: bool, testNeedRestart: bool, another: bool)
    requires Accounts(s)
    ensures s.agent.started ==> Accounts(ExperimentEnds(s, newlyFound, suspendedAtEnd, testNeedRestart, another))
  {
    Sends(s.toFrontend, NeedsRestart);
    Sends(s.toFrontend, SearchFinished);
    Sends(s.toFrontend, RequestsExperiment);
    hide Properties;
  }

  lemma CheckAccounted(s: State)
    ensures Accounts(s) ==> Accounts(AgentHandles(s, Check, [], false, false))
    ensures s.toFrontend == [] ==> IsDelivery(s.toFrontend + Delivery(s.agent.foundProperties))
  {
    DeliveryIs(s.agent.foundProperties);
    PropertiesAppend(s.toFrontend, Delivery(s.agent.foundProperties));
    hide Delivery, IsDelivery, Properties;
    assert [] + Delivery(s.agent.foundProperties) == Delivery(s.agent.foundProperties);
  }

  lemma AgentRunsOk(s: State)
    requires Ok(s)
    ensures Ok(After(s, AgentRuns))
  {
    hide Properties, Answers;
    Sends(s.toFrontend, Heartbeat);
  }

  /** What kind of request is next tells where the protocol is. */
  lemma ModeOfRequest(s: State)
    requires Ok(s) && s.toAgent != []
    ensures var r := s.toAgent[0];
            && (AsksForExperiment(r) || r.Check? ==> |s.toAgent| == 1 && s.toFrontend == [] && !s.agent.started)
            && (AsksForExperiment(r) ==> ModeOf(s) == Asked)
            && (r.Check? ==> ModeOf(s) == Checking)
            && (r.Terminate? || r.Reinit? || r.Quit? ==>
                  ModeOf(s) == ShuttingDown || ModeOf(s) == Restarting || ModeOf(s) == Quitting || ModeOf(s) == Left)
  {
  }

  /** The agent is up, and there is a request. */
  ghost predicate HasRequest(s: State) {
    Ok(s) && s.agent.heartbeatSent && !s.agent.stopped && s.toAgent != []
  }

  lemma ExperimentBeginsOk(s: State, newlyFound: seq<Property>, testNeedRestart: bool, answer: Message)
    requires HasRequest(s) && AsksForExperiment(s.toAgent[0]) && IsAnswer(answer)
    ensures Ok(ExperimentBegins(s.(toAgent := s.toAgent[1..]), newlyFound, testNeedRestart, answer))
  {
    hide Properties, Answers, IsDelivery, IsDelivering;
    hide IsBooting, IsStopped, IsShuttingDown, IsRestarting, IsQuitting, IsLeft;
    ModeOfRequest(s);
    NothingSaid();
    Sends([], answer);
    assert [] + [answer] == [answer];
  }

  /** The state after all properties found were sent. */
  ghost function Checked(s: State): State {
    s.(toAgent := [], toFrontend := Delivery(s.agent.foundProperties), agent := s.agent.(foundProperties := []))
  }

  lemma CheckedDelivers(s: State)
    requires Search(s) && !s.agent.started && s.child.searchStatus != Undefined
    ensures ModeOf(Checked(s)) == Delivering && IsDelivering(Checked(s))
    ensures Properties(Checked(s).toFrontend) == s.agent.foundProperties
  {
    DeliveryIs(s.agent.foundProperties);
    hide Delivery, Properties, IsDelivery, IsAnswer;
  }

  lemma CheckedBooks(s: State)
    requires Common(s) && Accounts(s) && Booked(s, 1, 1) && s.toFrontend == []
    requires Properties(Checked(s).toFrontend) == s.agent.foundProperties
    ensures Common(Checked(s)) && Accounts(Checked(s)) && Booked(Checked(s), 1, 1)
  {
    hide Delivery;
    NothingSaid();
    hide Properties;
  }

  lemma CheckOk(s: State)
    requires HasRequest(s) && s.toAgent[0] == Check
    ensures Ok(Checked(s))
  {
    assert ModeOf(s) == Checking && s.toFrontend == [];
    hide Checked, Common, Accounts, Booked;
    CheckedDelivers(s);
    CheckedBooks(s);
  }

  lemma CheckHandled(s: State, newlyFound: seq<Property>, testNeedRestart: bool, delayed: bool)
    requires s.agent.heartbeatSent && !s.agent.stopped && s.toFrontend == [] && s.toAgent == [Check]
    ensures After(s, AgentReceives(newlyFound, testNeedRestart, delayed)) == Checked(s)
  {
    hide Delivery;
    assert s.toAgent[1..] == [] && [] + Delivery(s.agent.foundProperties) == Delivery(s.agent.foundProperties);
  }

  lemma Handled(s: State, newlyFound: seq<Property>, testNeedRestart: bool, delayed: bool)
    requires HasRequest(s)
    ensures var t := After(s, AgentReceives(newlyFound, testNeedRestart, delayed));
            && (s.toAgent[0] == Start ==>
                  t == ExperimentBegins(s.(toAgent := s.toAgent[1..]), newlyFound, testNeedRestart,
                                        if delayed then SearchFinished else NeedsRestart))
            && (s.toAgent[0] == StartExperiment ==>
                  t == ExperimentBegins(s.(toAgent := s.toAgent[1..]), newlyFound, testNeedRestart, NeedsRestart))
            && (s.toAgent[0] == Check ==>
                  t == Checked(s))
  {
    hide ExperimentBegins, Delivery;
    ModeOfRequest(s);
    hide Ok;
    if s.toAgent[0] == Check {
      assert s.toAgent == [Check];
      CheckHandled(s, newlyFound, testNeedRestart, delayed);
    }
  }

  lemma AsideTail(rs: seq<Request>)
    requires Aside(rs) && rs != []
    ensures Aside(rs[1..]) && (rs[0].Terminate? || rs[0].Reinit? || rs[0].Quit?)
  {
  }

  /** What the agent replies to a request that has nothing to do with an experiment. */
  ghost function Reply(r: Request): seq<Message> {
    if r.Terminate? then [Terminated] else if r.Reinit? then [Heartbeat] else []
  }

  lemma AsideHandled(s: State, newlyFound: seq<Property>, testNeedRestart: bool, delayed: bool)
    requires s.agent.heartbeatSent && !s.agent.stopped && s.toAgent != []
    requires s.toAgent[0].Terminate? || s.toAgent[0].Reinit? || s.toAgent[0].Quit?
    ensures After(s, AgentReceives(newlyFound, testNeedRestart, delayed)) ==
            s.(toAgent := s.toAgent[1..],
               toFrontend := s.toFrontend + Reply(s.toAgent[0]),
               agent := s.agent.(stopped := s.toAgent[0].Quit?))
    ensures Properties(s.toFrontend + Reply(s.toAgent[0])) == Properties(s.toFrontend)
    ensures Answers(s.toFrontend + Reply(s.toAgent[0])) == Answers(s.toFrontend)
  {
    hide Properties, Answers;
    Sends(s.toFrontend, Terminated);
    Sends(s.toFrontend, Heartbeat);
    assert s.toFrontend + [] == s.toFrontend;
  }

  /** An agent that was told to quit, and handles what is before that. */
  lemma StillHangingUp(s: State)
    requires HangingUp(s) && !s.agent.stopped && s.toAgent != [] && Aside(s.toAgent)
    ensures HangingUp(s.(toAgent := s.toAgent[1..],
                         toFrontend := s.toFrontend + Reply(s.toAgent[0]),
                         agent := s.agent.(stopped := s.toAgent[0].Quit?)))
  {
    AsideTail(s.toAgent);
    RequestsTail(s.toAgent);
    hide QuitBeforeReinit, Aside;
  }

  lemma QuitRequestOk(s: State, newlyFound: seq<Property>, testNeedRestart: bool, delayed: bool)
    requires HasRequest(s) && (ModeOf(s) == Quitting || ModeOf(s) == Left)
    ensures Ok(After(s, AgentReceives(newlyFound, testNeedRestart, delayed)))
  {
    AsideTail(s.toAgent);
    AsideHandled(s, newlyFound, testNeedRestart, delayed);
    if HangingUp(s) {
      StillHangingUp(s);
    }
    hide After, Properties, Answers, HangingUp, Aside, IsDelivery, IsAnswer, Reply;
    hide IsBooting, IsDelivering, IsStopped, IsShuttingDown, IsRestarting, Search;
    var t := s.(toAgent := s.toAgent[1..],
                toFrontend := s.toFrontend + Reply(s.toAgent[0]),
                agent := s.agent.(stopped := s.toAgent[0].Quit?));
    assert ModeOf(t) == ModeOf(s);
  }

  lemma ShutdownRequestOk(s: State, newlyFound: seq<Property>, testNeedRestart: bool, delayed: bool)
    requires HasRequest(s) && (ModeOf(s) == ShuttingDown || ModeOf(s) == Restarting)
    ensures Ok(After(s, AgentReceives(newlyFound, testNeedRestart, delayed)))
  {
    assert s.toAgent == [Terminate] || s.toAgent == [Reinit];
    AsideHandled(s, newlyFound, testNeedRestart, delayed);
    assert [] + Reply(Terminate) == [Terminated] && [] + Reply(Reinit) == [Heartbeat];
    hide After, Properties, Answers, IsBooting, IsDelivering, IsStopped, IsQuitting, IsLeft, IsDelivery, Reply;
    assert s.toAgent[1..] == [] && s.toFrontend == [];
  }

  lemma AgentReceivesOk(s: State, newlyFound: seq<Property>, testNeedRestart: bool, delayed: bool)
    requires Ok(s)
    ensures Ok(After(s, AgentReceives(newlyFound, testNeedRestart, delayed)))
  {
    if s.agent.heartbeatSent && !s.agent.stopped && s.toAgent != [] {
      ModeOfRequest(s);
      Handled(s, newlyFound, testNeedRestart, delayed);
      hide Ok, ModeOf, After, ExperimentBegins, Delivery;
      if s.toAgent[0] == Start {
        ExperimentBeginsOk(s, newlyFound, testNeedRestart, if delayed then SearchFinished else NeedsRestart);
      } else if s.toAgent[0] == StartExperiment {
        ExperimentBeginsOk(s, newlyFound, testNeedRestart, NeedsRestart);
      } else if s.toAgent[0] == Check {
        CheckOk(s);
      } else if ModeOf(s) == ShuttingDown || ModeOf(s) == Restarting {
        ShutdownRequestOk(s, newlyFound, testNeedRestart, delayed);
      } else {
        QuitRequestOk(s, newlyFound, testNeedRestart, delayed);
      }
    } else {
      assert After(s, AgentReceives(newlyFound, testNeedRestart, delayed)) == s;
    }
  }

  lemma AgentStepsOk(s: State, newlyFound: seq<Property>, stillExecuting: bool, suspendedAtEnd: bool,
                     testNeedRestart: bool, another: bool)
    requires Ok(s)
    ensures Ok(After(s, AgentSteps(newlyFound, stillExecuting, suspendedAtEnd, testNeedRestart, another)))
  {
    if s.agent.started && !stillExecuting {
      assert ModeOf(s) == Experimenting;
      hide Properties, Answers, IsDelivery, IsDelivering;
      hide IsBooting, IsStopped, IsShuttingDown, IsRestarting, IsQuitting, IsLeft;
      NothingSaid();
      Sends([], NeedsRestart);
      Sends([], SearchFinished);
      Sends([], RequestsExperiment);
    }
  }

  /** What kind of message is next tells where the protocol is. */
  lemma ModeOfMessage(s: State)
    requires Ok(s) && s.loop.running && s.toFrontend != []
    ensures var m := s.toFrontend[0];
            && (IsAnswer(m) ==> ModeOf(s) == Answered && |s.toFrontend| == 1)
            && (m.FoundProp? ==> ModeOf(s) == Delivering && IsDelivery(s.toFrontend[1..]))
            && (m.PropertiesSent? ==> ModeOf(s) == Delivering && |s.toFrontend| == 1)
            && (m.Terminated? ==> ModeOf(s) == ShuttingDown || ModeOf(s) == Quitting)
            && (m.Heartbeat? ==> ModeOf(s) == Booting || ModeOf(s) == Restarting)
  {
  }

  /** The state in which the properties are asked for. */
  ghost function Asking(s: State): State
    requires s.toFrontend != []
  {
    var t := s.(toFrontend := s.toFrontend[1..]);
    var u := t.(child := t.child.(searchStatus := StatusOf(s.toFrontend[0])));
    var v := u.(plan := u.plan.(restartRequested := false));
    v.(toAgent := v.toAgent + [Check])
  }

  lemma AnswerHandled(s: State, reinstrumentation: bool)
    requires s.loop.running && !s.child.propertiesSent && s.toFrontend != [] && IsAnswer(s.toFrontend[0])
    ensures After(s, FrontendReceives(reinstrumentation)) == Asking(s)
  {
    var u := s.(toFrontend := s.toFrontend[1..]);
    assert FrontendHandles(u, s.toFrontend[0], reinstrumentation) ==
           Continues(u.(child := u.child.(searchStatus := StatusOf(s.toFrontend[0]))), reinstrumentation) by {
      hide Continues, StatusOf;
      match s.toFrontend[0] {
        case RequestsExperiment =>
        case NeedsRestart =>
        case SearchFinished =>
      }
    }
    hide FrontendHandles, Acts;
  }

  lemma AnswerOk(s: State, reinstrumentation: bool)
    requires Ok(s) && s.loop.running && s.toFrontend != [] && IsAnswer(s.toFrontend[0])
    ensures Ok(After(s, FrontendReceives(reinstrumentation)))
  {
    AnswerHandled(s, reinstrumentation);
    ModeOfMessage(s);
    MessagesTail(s.toFrontend);
    assert s.toFrontend[1..] == [] && s.toAgent + [Check] == [Check];
    hide Properties, Answers, After, IsDelivery, IsBooting, IsStopped, IsShuttingDown, IsRestarting, IsQuitting, IsLeft;
  }

  /** When the last property is in, nothing is on its way, and nothing waits at the agent. */
  lemma AllDelivered(s: State)
    requires Ok(s) && s.loop.running && s.toFrontend != [] && s.toFrontend[0].PropertiesSent?
    ensures ModeOf(s) == Delivering && s.toFrontend == [PropertiesSent]
    ensures s.ledger.delivered == s.ledger.found && s.agent.foundProperties == []
  {
    ModeOfMessage(s);
    MessagesTail(s.toFrontend);
  }

  /** In the event loop, with nothing under way. */
  ghost predicate Settled(s: State) {
    && Common(s) && Accounts(s) && Booked(s, 0, 0) && Idle(s) && Search(s)
  }

  lemma AskedOk(s: State)
    requires Common(s) && Accounts(s) && Booked(s, 1, 0) && Search(s) && !s.agent.started && s.toFrontend == []
    requires s.toAgent == [Start] || s.toAgent == [StartExperiment]
    ensures Ok(s)
  {
    assert s.toAgent[0] != Check;
    assert ModeOf(s) == Asked;
    hide Accounts, Booked, IsBooting, IsDelivering, IsStopped, IsShuttingDown, IsRestarting, IsQuitting, IsLeft;
  }

  lemma StoppedOk(s: State)
    requires Common(s) && Accounts(s) && Booked(s, 0, 0) && IsStopped(s) && !s.loop.running && !s.plan.quitFe
    requires s.loop.stage == Searching || s.loop.stage == Reinitializing
    ensures Ok(s)
  {
    assert ModeOf(s) == Stopped;
    hide Accounts, Booked, IsBooting, IsDelivering, IsShuttingDown, IsRestarting, IsQuitting, IsLeft;
  }

  lemma NextSearchesOk(s: State)
    requires Settled(s) && !s.plan.restartRequested
    ensures Ok(NextSearches(s))
  {
    hide Properties, Ok;
    if s.plan.strategyRequestBuffer == [] {
      StoppedOk(s.(loop := s.loop.(running := false)));
    } else {
      assert s.toAgent + [Start] == [Start];
      AskedOk(s.(toAgent := s.toAgent + [Start],
                 ledger := s.ledger.(asked := s.ledger.asked + 1),
                 child := s.child.(propertiesSent := false),
                 plan := s.plan.(strategyRequestBuffer := [])));
    }
  }

  lemma NextExperimentOk(s: State)
    requires Settled(s)
    ensures Ok(NextExperiments(s))
  {
    hide Properties, Ok;
    assert s.toAgent + [StartExperiment] == [StartExperiment];
    AskedOk(NextExperiments(s));
  }

  lemma QuitsOk(s: State)
    requires Settled(s)
    ensures Ok(Quits(s))
  {
    NothingSaid();
    hide Properties, Answers, IsDelivery;
  }

  lemma AsksForRestartOk(s: State)
    requires Settled(s) && !s.plan.shutdownAllowed
    ensures Ok(AsksForRestart(s))
  {
    hide Properties, Ok;
    StoppedOk(AsksForRestart(s));
  }

  /** The state in which a decision is enforced. */
  ghost function Deciding(s: State): State
    requires s.toFrontend != []
  {
    var t := s.(toFrontend := s.toFrontend[1..]);
    var u := t.(child := t.child.(propertiesSent := true));
    var v := u.(plan := u.plan.(restartRequested := false));
    v.(child := v.child.(propertiesSent := false),
       ledger := v.ledger.(decisions := v.ledger.decisions + [Decided(v.ledger.delivered, v.ledger.found)]))
  }

  lemma DecidingSettled(s: State)
    requires Ok(s) && s.loop.running && s.toFrontend != [] && s.toFrontend[0].PropertiesSent?
    ensures Settled(Deciding(s))
  {
    AllDelivered(s);
    NothingSaid();
    hide Properties, Answers;
    assert s.toFrontend[1..] == [];
  }

  lemma DecisionHandled(s: State, reinstrumentation: bool)
    requires s.loop.running && s.toFrontend != [] && s.toFrontend[0].PropertiesSent?
    requires s.child.searchStatus != Undefined
    ensures After(s, FrontendReceives(reinstrumentation)) ==
            Acts(Deciding(s), Needed(s.child.searchStatus, reinstrumentation))
  {
    hide Acts, Needed;
  }

  lemma DecisionOk(s: State, reinstrumentation: bool)
    requires Ok(s) && s.loop.running && s.toFrontend != [] && s.toFrontend[0].PropertiesSent?
    ensures Ok(After(s, FrontendReceives(reinstrumentation)))
  {
    AllDelivered(s);
    assert s.child.searchStatus != Undefined;
    DecidingSettled(s);
    DecisionHandled(s, reinstrumentation);
    var t := Deciding(s);
    hide Ok, Settled, ModeOf, After, NextSearches, NextExperiments, Quits, AsksForRestart;
    match Needed(s.child.searchStatus, reinstrumentation) {
      case Finished =>
        NextSearchesOk(t);
      case ReqExperiment =>
        NextExperimentOk(t);
      case _ =>
        if s.plan.shutdownAllowed {
          QuitsOk(t);
        } else {
          AsksForRestartOk(t);
        }
    }
  }

  lemma FoundPropOk(s: State, reinstrumentation: bool)
    requires Ok(s) && s.loop.running && s.toFrontend != [] && s.toFrontend[0].FoundProp?
    ensures Ok(After(s, FrontendReceives(reinstrumentation)))
  {
    hide Properties, Answers, Continues;
    ModeOfMessage(s);
    MessagesTail(s.toFrontend);
  }

  lemma TerminatedOk(s: State)
    requires Ok(s) && s.loop.running && s.toFrontend != [] && s.toFrontend[0].Terminated?
    ensures Ok(s.(toFrontend := s.toFrontend[1..], child := s.child.(applTerminated := true)))
  {
    ModeOfMessage(s);
    MessagesTail(s.toFrontend);
    hide Properties, Answers, QuitBeforeReinit, Booked, IsDelivery, IsAnswer;
    hide IsBooting, IsDelivering, IsStopped, IsRestarting, IsLeft, Aside;
    assert ModeOf(s.(toFrontend := s.toFrontend[1..], child := s.child.(applTerminated := true))) == ModeOf(s);
  }

  lemma HeartbeatOk(s: State, reinstrumentation: bool)
    requires Ok(s) && s.loop.running && s.toFrontend != [] && s.toFrontend[0].Heartbeat?
    ensures Ok(After(s, FrontendReceives(reinstrumentation)))
  {
    ModeOfMessage(s);
    MessagesTail(s.toFrontend);
    hide Properties, Answers, QuitBeforeReinit, Booked, IsDelivery;
    hide IsDelivering, IsStopped, IsShuttingDown, IsQuitting, IsLeft, Aside;
  }

  lemma FrontendReceivesOk(s: State, reinstrumentation: bool)
    requires Ok(s)
    ensures Ok(After(s, FrontendReceives(reinstrumentation)))
  {
    if s.loop.running && s.toFrontend != [] {
      hide Ok;
      var m := s.toFrontend[0];
      if IsAnswer(m) {
        AnswerOk(s, reinstrumentation);
      } else if m.PropertiesSent? {
        DecisionOk(s, reinstrumentation);
      } else if m.FoundProp? {
        FoundPropOk(s, reinstrumentation);
      } else if m.Terminated? {
        TerminatedOk(s);
      } else {
        HeartbeatOk(s, reinstrumentation);
      }
    }
  }

  /** Once the frontend quits, its only loop left waits for an agent that is not set up again. */
  lemma StuckTimer(s: State)
    requires Ok(s) && s.loop.running && s.plan.quitFe
    ensures s.loop.timer == StartupReinit && s.child.statusReinit == Initial
    ensures s.loop.stage == Reinitializing && HangingUp(s)
  {
  }

  lemma StartupTickOk(s: State, unregistered: bool, timedOut: bool)
    requires Ok(s) && s.loop.running && s.loop.timer == Startup
    ensures Ok(Ticks(s, unregistered, timedOut))
  {
    assert ModeOf(s) == Booting;
    NothingSaid();
    hide Properties, Answers, IsDelivery;
    if s.child.status == Started {
      NextSearchesOk(s.(loop := s.loop.(timer := NoTimer)));
    }
  }

  lemma TerminationTickOk(s: State, unregistered: bool, timedOut: bool)
    requires Ok(s) && s.loop.running && s.loop.timer == ApplicationTermination
    ensures Ok(Ticks(s, unregistered, timedOut))
  {
    assert ModeOf(s) == ShuttingDown;
    if !s.child.applTerminated {
      QuitLast(s.toAgent);
    }
    NothingSaid();
    hide Properties, Answers, QuitBeforeReinit, Booked, IsDelivery;
    hide IsBooting, IsDelivering, IsStopped, IsRestarting, IsLeft;
  }

  lemma ReinitTickOk(s: State, unregistered: bool, timedOut: bool)
    requires Ok(s) && s.loop.running && s.loop.timer == StartupReinit
    ensures Ok(Ticks(s, unregistered, timedOut))
  {
    if s.child.statusReinit == Started {
      if s.plan.quitFe {
        StuckTimer(s);
      }
      assert ModeOf(s) == Restarting;
      hide Properties, Answers, IsDelivery;
      var t := s.(loop := s.loop.(timer := NoTimer));
      NextExperimentOk(t);
      assert s.(loop := s.loop.(timer := NoTimer), child := s.child.(propertiesSent := false)) == t;
    }
  }

  lemma TicksOk(s: State, unregistered: bool, timedOut: bool)
    requires Ok(s)
    ensures Ok(After(s, FrontendTicks(unregistered, timedOut)))
  {
    hide Ok;
    if s.loop.running {
      match s.loop.timer {
        case NoTimer =>
        case Startup =>
          StartupTickOk(s, unregistered, timedOut);
        case ApplicationTermination =>
          TerminationTickOk(s, unregistered, timedOut);
        case StartupReinit =>
          ReinitTickOk(s, unregistered, timedOut);
      }
    }
  }

  /** Outside the event loops the frontend has stopped, is between shutdown and restart, or quits. */
  lemma ModeOutsideLoops(s: State)
    requires Ok(s) && !s.loop.running && s.loop.stage != Over
    ensures if s.plan.quitFe then IsQuitting(s) && ModeOf(s) == Quitting
            else if s.loop.stage == Terminating then IsShuttingDown(s) && ModeOf(s) == ShuttingDown
            else IsStopped(s) && ModeOf(s) == Stopped
    ensures Booked(s, 0, 0)
  {
  }

  lemma RerunOk(s: State)
    requires Ok(s) && !s.loop.running && s.loop.stage == Terminating
    ensures Ok(GoesOn(s))
  {
    ModeOutsideLoops(s);
    RequestsAppend(s.toAgent, [Reinit]);
    NothingSaid();
    forall k | 0 <= k < |s.toAgent|
      ensures (s.toAgent + [Reinit])[k] == s.toAgent[k]
    {
    }
    hide Properties, Answers, QuitBeforeReinit, Asks, Booked, IsDelivery;
    hide IsBooting, IsDelivering, IsStopped, IsLeft;
    if !s.plan.quitFe {
      assert s.toAgent + [Reinit] == [Reinit];
    }
  }

  lemma RestartOk(s: State)
    requires Ok(s) && !s.loop.running && s.loop.stage != Over && s.loop.stage != Terminating && Restarts(s)
    ensures Ok(GoesOn(s))
  {
    ModeOutsideLoops(s);
    hide Properties, Answers, QuitBeforeReinit, Booked, IsDelivery;
    assert s.toAgent + [Terminate] == [Terminate];
  }

  lemma LeaveOk(s: State)
    requires Ok(s) && !s.loop.running && s.loop.stage != Over
    ensures Ok(s.(loop := s.loop.(stage := Over)))
  {
    ModeOutsideLoops(s);
    NothingSaid();
    hide Properties, Answers, QuitBeforeReinit, Booked, IsDelivery;
  }

  lemma MainGoesOnOk(s: State)
    requires Ok(s)
    ensures Ok(After(s, MainGoesOn))
  {
    hide Ok, Restarts;
    if !s.loop.running && s.loop.stage != Over {
      if s.loop.stage == Terminating {
        RerunOk(s);
      } else if Restarts(s) {
        RestartOk(s);
      } else {
        LeaveOk(s);
      }
    }
  }

  lemma StillOk(s: State, event: Event)
    requires Ok(s)
    ensures Ok(After(s, event))
  {
    hide Ok, After;
    match event {
      case AgentRuns =>
        AgentRunsOk(s);
      case AgentReceives(newlyFound, testNeedRestart, delayed) =>
        AgentReceivesOk(s, newlyFound, testNeedRestart, delayed);
      case AgentSteps(newlyFound, stillExecuting, suspendedAtEnd, testNeedRestart, another) =>
        AgentStepsOk(s, newlyFound, stillExecuting, suspendedAtEnd, testNeedRestart, another);
      case FrontendReceives(reinstrumentation) =>
        FrontendReceivesOk(s, reinstrumentation);
      case FrontendTicks(unregistered, timedOut) =>
        TicksOk(s, unregistered, timedOut);
      case MainGoesOn =>
        MainGoesOnOk(s);
    }
  }

  lemma AtMostOneUnderWay(s: State)
    requires Ok(s)
    ensures Asks(s.toAgent) == (if ModeOf(s) == Asked then 1 else 0)
    ensures (if s.agent.started then 1 else 0) + Answers(s.toFrontend) <= if InHand(ModeOf(s)) then 1 else 0
  {
    if IsDelivery(s.toFrontend) {
      DeliveryHasNoAnswer(s.toFrontend);
    }
    if Aside(s.toAgent) {
      AsideAsksNothing(s.toAgent);
    }
    assert Asks([Start]) == 1 && Asks([StartExperiment]) == 1 && Asks([]) == 0 && Asks([Check]) == 0;
    NothingSaid();
    hide Properties, Booked, HangingUp;
  }

  /** There is never more than one experiment asked for, running, or answered but not yet looked at;
      every request the agent accepted has had one answer, but for the one that runs, and every request
      one decision, with everything delivered that was found, but for one that may be under way. */
  lemma AtMostOneExperiment(s: State)
    requires Ok(s)
    ensures Asks(s.toAgent) + (if s.agent.started then 1 else 0) + Answers(s.toFrontend) <= 1
    ensures s.ledger.accepted == s.ledger.answered + if s.agent.started then 1 else 0
    ensures s.ledger.asked - Asks(s.toAgent) == s.ledger.accepted
    ensures |s.ledger.decisions| <= s.ledger.asked <= |s.ledger.decisions| + 1
    ensures forall d :: d in s.ledger.decisions ==> d.delivered == d.found <= s.ledger.found
    ensures s.ledger.found == s.ledger.delivered + Properties(s.toFrontend) + s.agent.foundProperties
    ensures s.loop.runs < MAX_RUNS
  {
    AtMostOneUnderWay(s);
    assert s.ledger.delivered <= s.ledger.found;
    hide InMode, ModeOf, Properties;
  }

  // ----- what the handlers rely on ----------------------------------------------------------

  lemma AccountsSame(s: State, t: State)
    requires Accounts(t) && s.ledger == t.ledger && s.agent == t.agent && s.toFrontend == t.toFrontend
    ensures Accounts(s)
  {
  }

  lemma RequestMeans(s: State)
    requires Ok(s) && s.toAgent != []
    ensures Accounts(s.(toAgent := s.toAgent[1..]))
    ensures AsksForExperiment(s.toAgent[0]) ==> !s.agent.started && s.toFrontend == []
    ensures s.toAgent[0].Check? ==> s.toFrontend == []
  {
    ModeOfRequest(s);
  }

  lemma MessageMeans(s: State)
    requires Ok(s) && s.loop.running && s.toFrontend != []
    ensures !s.child.propertiesSent
    ensures var t := s.(toFrontend := s.toFrontend[1..]);
            && (IsAnswer(s.toFrontend[0]) ==> Accounts(t) && Idle(t))
            && (s.toFrontend[0].PropertiesSent? ==>
                  Accounts(t) && Idle(t) && s.agent.foundProperties == [] && s.child.searchStatus != Undefined)
  {
    ModeOfMessage(s);
    MessagesTail(s.toFrontend);
    hide Properties;
    if IsAnswer(s.toFrontend[0]) || s.toFrontend[0].PropertiesSent? {
      assert s.toFrontend[1..] == [];
    }
  }
}
