/** The frontend and one analysis agent as states and events: what each event does to all they know and
    to the two queues between them. */
module ProtocolStates {
  import opened Sequences

  type Property = int

  datatype SearchStatus = ReqRestart | ReqExperiment | Finished | Undefined

  datatype Status = Initial | Started

  /** From the frontend to the agent. */
  datatype Request = Start | StartExperiment | Check | Terminate | Reinit | Quit

  /** From the agent to the frontend. */
  datatype Message =
    | RequestsExperiment | NeedsRestart | SearchFinished
    | FoundProp(property: Property) | PropertiesSent | Terminated | Heartbeat

  datatype TimerAction = NoTimer | Startup | ApplicationTermination | StartupReinit

  /** Which event loop of its main program the frontend is in, and whether that has ended. */
  datatype Stage = Searching | Terminating | Reinitializing | Over

  /** An enforced decision: what had been delivered by then, and what the agent had found. */
  datatype Decided = Decided(delivered: seq<Property>, found: seq<Property>)

  const MAX_RUNS := 40

  /** Something that happens, with all that the application and the strategy contribute to it. */
  datatype Event =
    | AgentRuns
    | AgentReceives(newlyFound: seq<Property>, testNeedRestart: bool, delayed: bool)
    | AgentSteps(newlyFound: seq<Property>, stillExecuting: bool, suspendedAtEnd: bool, testNeedRestart: bool,
                 another: bool)
    | FrontendReceives(reinstrumentation: bool)
    | FrontendTicks(unregistered: bool, timedOut: bool)
    | MainGoesOn

  predicate IsAnswer(m: Message) {
    m.RequestsExperiment? || m.NeedsRestart? || m.SearchFinished?
  }

  predicate AsksForExperiment(r: Request) {
    r.Start? || r.StartExperiment?
  }

  // ----- states and events ------------------------------------------------------------------

  /** The frontend's record of its child. */
  datatype Child = Child(status: Status, statusReinit: Status, propertiesSent: bool, applTerminated: bool,
                         searchStatus: SearchStatus)

  /** What the frontend means to do. */
  datatype Plan = Plan(strategyRequestBuffer: seq<int>, needRestart: bool, restartRequested: bool,
                       shutdownAllowed: bool, quitFe: bool)

  /** Where the frontend's main program is. */
  datatype Loop = Loop(timer: TimerAction, running: bool, stage: Stage, runs: nat)

  datatype Agent = Agent(heartbeatSent: bool, stopped: bool, started: bool, foundProperties: seq<Property>)

  /** What has happened so far: the properties the frontend got and decided on, those the agent found, and
      how many requests for an experiment were sent, accepted and answered. */
  datatype Ledger = Ledger(delivered: seq<Property>, decisions: seq<Decided>, asked: nat,
                           found: seq<Property>, accepted: nat, answered: nat)

  /** All that frontend and agent know, and the queues between them. */
  datatype State = State(child: Child, plan: Plan, loop: Loop, agent: Agent,
                         toAgent: seq<Request>, toFrontend: seq<Message>, ledger: Ledger)

  /** How a session begins. */
  function Beginning(strategyRequestBuffer: seq<int>): State {
    State(Child(Initial, Initial, false, false, Undefined), Plan(strategyRequestBuffer, false, false, false, false),
          Loop(Startup, true, Searching, 0), Agent(false, false, false, []), [], [], Ledger([], [], 0, [], 0, 0))
  }

  /** All properties, and the note that these were all. */
  function Delivery(ps: seq<Property>): seq<Message> {
    if ps == [] then [PropertiesSent] else [FoundProp(ps[0])] + Delivery(ps[1..])
  }

  /** The agent handles a request that is off the queue. */
  function AgentHandles(s: State, r: Request, newlyFound: seq<Property>, testNeedRestart: bool, delayed: bool): State {
    match r
    case Start => ExperimentBegins(s, newlyFound, testNeedRestart, if delayed then SearchFinished else NeedsRestart)
    case StartExperiment => ExperimentBegins(s, newlyFound, testNeedRestart, NeedsRestart)
    case Check => s.(toFrontend := s.toFrontend + Delivery(s.agent.foundProperties),
                     agent := s.agent.(foundProperties := []))
    case Terminate => s.(toFrontend := s.toFrontend + [Terminated])
    case Reinit => s.(toFrontend := s.toFrontend + [Heartbeat])
    case Quit => s.(agent := s.agent.(stopped := true))
  }

  /** An experiment begins, or the agent says at once that it cannot. */
  function ExperimentBegins(s: State, newlyFound: seq<Property>, testNeedRestart: bool, answer: Message): State {
    s.(agent := s.agent.(foundProperties := s.agent.foundProperties + newlyFound, started := !testNeedRestart),
       ledger := s.ledger.(found := s.ledger.found + newlyFound, accepted := s.ledger.accepted + 1,
                           answered := s.ledger.answered + if testNeedRestart then 1 else 0),
       toFrontend := s.toFrontend + (if testNeedRestart then [answer] else []))
  }

  /** The experiment is over, and the agent says what is needed next. */
  function ExperimentEnds(s: State, newlyFound: seq<Property>, suspendedAtEnd: bool, testNeedRestart: bool,
                          another: bool): State
  {
    var seen := if suspendedAtEnd then [] else newlyFound;
    s.(agent := s.agent.(started := false, foundProperties := s.agent.foundProperties + seen),
       ledger := s.ledger.(answered := s.ledger.answered + 1, found := s.ledger.found + seen),
       toFrontend := s.toFrontend + [if suspendedAtEnd then NeedsRestart
                                     else if !another then SearchFinished
                                     else if testNeedRestart then NeedsRestart else RequestsExperiment])
  }

  /** The next strategy request goes off, or the event loop ends. */
  function NextSearches(s: State): State {
    if s.plan.strategyRequestBuffer == [] then s.(loop := s.loop.(running := false))
    else s.(toAgent := s.toAgent + [Start],
            ledger := s.ledger.(asked := s.ledger.asked + 1),
            child := s.child.(propertiesSent := false),
            plan := s.plan.(strategyRequestBuffer := []))
  }

  function Quits(s: State): State {
    s.(plan := s.plan.(quitFe := true), loop := s.loop.(running := false), toAgent := s.toAgent + [Quit])
  }

  function AsksForRestart(s: State): State {
    s.(plan := s.plan.(restartRequested := true, needRestart := true),
       child := s.child.(applTerminated := false, searchStatus := Undefined, statusReinit := Initial),
       loop := s.loop.(running := false))
  }

  /** What is decided, unless the application has to be instrumented anew. */
  function Needed(searchStatus: SearchStatus, reinstrumentation: bool): SearchStatus {
    if searchStatus == ReqExperiment && reinstrumentation then ReqRestart else searchStatus
  }

  function NextExperiments(s: State): State {
    s.(child := s.child.(searchStatus := Undefined),
       toAgent := s.toAgent + [StartExperiment],
       ledger := s.ledger.(asked := s.ledger.asked + 1))
  }

  function Acts(s: State, needed: SearchStatus): State {
    match needed
    case Finished => NextSearches(s)
    case ReqExperiment => NextExperiments(s)
    case _ => if s.plan.shutdownAllowed then Quits(s) else AsksForRestart(s)
  }

  /** The decision is enforced. */
  function Enforces(s: State, reinstrumentation: bool): State {
    Acts(s.(child := s.child.(propertiesSent := false),
            ledger := s.ledger.(decisions := s.ledger.decisions + [Decided(s.ledger.delivered, s.ledger.found)])),
         Needed(s.child.searchStatus, reinstrumentation))
  }

  /** The frontend decides, if it can. */
  function Continues(s: State, reinstrumentation: bool): State {
    var t := s.(plan := s.plan.(restartRequested := false));
    if t.child.searchStatus == Undefined then t
    else if !t.child.propertiesSent then t.(toAgent := t.toAgent + [Check])
    else Enforces(t, reinstrumentation)
  }

  function StatusOf(answer: Message): SearchStatus {
    if answer.RequestsExperiment? then ReqExperiment else if answer.NeedsRestart? then ReqRestart else Finished
  }

  /** The frontend handles a message that is off the queue. */
  function FrontendHandles(s: State, m: Message, reinstrumentation: bool): State {
    match m
    case FoundProp(p) => s.(ledger := s.ledger.(delivered := s.ledger.delivered + [p]))
    case PropertiesSent => Continues(s.(child := s.child.(propertiesSent := true)), reinstrumentation)
    case Terminated => s.(child := s.child.(applTerminated := true))
    case Heartbeat =>
      if s.child.status == Initial then s.(child := s.child.(status := Started, propertiesSent := false))
      else s.(child := s.child.(statusReinit := Started, propertiesSent := false))
    case _ => Continues(s.(child := s.child.(searchStatus := StatusOf(m))), reinstrumentation)
  }

  /** The frontend's timer. */
  function Ticks(s: State, unregistered: bool, timedOut: bool): State {
    match s.loop.timer
    case NoTimer => s
    case Startup =>
      if s.child.status == Started then NextSearches(s.(loop := s.loop.(timer := NoTimer)))
      else if timedOut then Quits(s) else s
    case ApplicationTermination =>
      if s.child.applTerminated then if unregistered then s.(loop := s.loop.(timer := NoTimer, running := false)) else s
      else if timedOut then Quits(s) else s
    case StartupReinit =>
      if s.child.statusReinit != Started then s
      else NextExperiments(s.(loop := s.loop.(timer := NoTimer), child := s.child.(propertiesSent := false)))
  }

  /** The main program would restart the application. */
  predicate Restarts(s: State) {
    s.plan.needRestart && s.loop.runs + 1 < MAX_RUNS && !s.plan.quitFe && s.plan.restartRequested
  }

  /** What the main program does after an event loop has ended. */
  function GoesOn(s: State): State {
    if s.loop.stage == Terminating then
      s.(loop := s.loop.(stage := Reinitializing, running := true, timer := StartupReinit),
         toAgent := s.toAgent + [Reinit])
    else if Restarts(s) then
      s.(loop := s.loop.(stage := Terminating, running := true, timer := ApplicationTermination,
                         runs := s.loop.runs + 1),
         toAgent := s.toAgent + [Terminate],
         plan := s.plan.(shutdownAllowed := s.loop.runs + 1 == MAX_RUNS - 1),
         child := s.child.(applTerminated := false))
    else s.(loop := s.loop.(stage := Over))
  }

  /** What an event does; nothing, if it cannot happen. */
  function After(s: State, event: Event): State {
    match event
    case AgentRuns =>
      if s.agent.heartbeatSent then s
      else s.(agent := s.agent.(heartbeatSent := true), toFrontend := s.toFrontend + [Heartbeat])
    case AgentReceives(newlyFound, testNeedRestart, delayed) =>
      if !s.agent.heartbeatSent || s.agent.stopped || s.toAgent == [] then s
      else AgentHandles(s.(toAgent := s.toAgent[1..]), s.toAgent[0], newlyFound, testNeedRestart, delayed)
    case AgentSteps(newlyFound, stillExecuting, suspendedAtEnd, testNeedRestart, another) =>
      if !s.agent.started || stillExecuting then s
      else ExperimentEnds(s, newlyFound, suspendedAtEnd, testNeedRestart, another)
    case FrontendReceives(reinstrumentation) =>
      if !s.loop.running || s.toFrontend == [] then s
      else FrontendHandles(s.(toFrontend := s.toFrontend[1..]), s.toFrontend[0], reinstrumentation)
    case FrontendTicks(unregistered, timedOut) =>
      if s.loop.running then Ticks(s, unregistered, timedOut) else s
    case MainGoesOn =>
      if s.loop.running || s.loop.stage == Over then s else GoesOn(s)
  }

  /** What a schedule does, event by event. */
  function AfterAll(s: State, schedule: seq<Event>): State {
    if schedule == [] then s else After(AfterAll(s, Init(schedule)), Last(schedule))
  }

  /** What the strategy finds in an event: at the end of an experiment that was not suspended, and when the
      agent accepts a request for one. */
  function Finds(s: State, event: Event): seq<Property> {
    match event
    case AgentSteps(newlyFound, stillExecuting, suspendedAtEnd, _, _) =>
      if s.agent.started && !stillExecuting && !suspendedAtEnd then newlyFound else []
    case AgentReceives(newlyFound, _, _) =>
      if s.agent.heartbeatSent && !s.agent.stopped && s.toAgent != []
         && (s.toAgent[0] == Start || s.toAgent[0] == StartExperiment) then newlyFound
      else []
    case _ => []
  }

  /** What it finds in the course of a schedule, in order. */
  function FoundDuring(s: State, schedule: seq<Event>): seq<Property> {
    if schedule == [] then []
    else FoundDuring(s, Init(schedule)) + Finds(AfterAll(s, Init(schedule)), Last(schedule))
  }

  /** Nothing but what the strategy finds is added to what was found, and all of that is. */
  lemma FoundAfter(s: State, event: Event)
    ensures After(s, event).ledger.found == s.ledger.found + Finds(s, event)
  {
    match event {
      case AgentReceives(newlyFound, testNeedRestart, delayed) =>
        if s.agent.heartbeatSent && !s.agent.stopped && s.toAgent != [] {
          match s.toAgent[0] {
            case Start =>
            case StartExperiment =>
            case Check =>
            case Terminate =>
            case Reinit =>
            case Quit =>
          }
        }
      case AgentSteps(newlyFound, stillExecuting, suspendedAtEnd, testNeedRestart, another) =>
        if suspendedAtEnd {
        } else {
        }
      case FrontendReceives(reinstrumentation) =>
        if s.loop.running && s.toFrontend != [] {
          FrontendFindsNothing(s.(toFrontend := s.toFrontend[1..]), s.toFrontend[0], reinstrumentation);
        }
      case _ =>
    }
  }

  lemma FrontendFindsNothing(s: State, m: Message, reinstrumentation: bool)
    ensures FrontendHandles(s, m, reinstrumentation).ledger.found == s.ledger.found
  {
    match m {
      case FoundProp(_) =>
      case PropertiesSent =>
      case Terminated =>
      case Heartbeat =>
      case _ =>
    }
  }

  lemma {:induction false} FoundIs(s: State, schedule: seq<Event>)
    ensures AfterAll(s, schedule).ledger.found == s.ledger.found + FoundDuring(s, schedule)
  {
    hide After, Finds;
    if schedule != [] {
      FoundIs(s, Init(schedule));
      FoundAfter(AfterAll(s, Init(schedule)), Last(schedule));
      Regroup(s.ledger.found, FoundDuring(s, Init(schedule)), Finds(AfterAll(s, Init(schedule)), Last(schedule)));
    }
  }

  /** The frontend is told to quit while the application has not ended. */
  predicate Abandons(s: State, event: Event) {
    && event.FrontendTicks? && event.timedOut
    && s.loop.running && s.loop.stage == Terminating && !s.child.applTerminated
  }

  predicate Abandoned(s: State, schedule: seq<Event>) {
    schedule != [] && (Abandoned(s, Init(schedule)) || Abandons(AfterAll(s, Init(schedule)), Last(schedule)))
  }

  lemma AfterNext(s: State, schedule: seq<Event>, event: Event)
    ensures AfterAll(s, schedule + [event]) == After(AfterAll(s, schedule), event)
    ensures Abandoned(s, schedule + [event]) <==>
              Abandoned(s, schedule) || Abandons(AfterAll(s, schedule), event)
  {
    assert Init(schedule + [event]) == schedule;
  }

  lemma AfterPrefix(s: State, schedule: seq<Event>, k: nat)
    requires k < |schedule|
    ensures AfterAll(s, schedule[..k + 1]) == After(AfterAll(s, schedule[..k]), schedule[k])
    ensures Abandons(AfterAll(s, schedule[..k]), schedule[k]) ==> Abandoned(s, schedule[..k + 1])
    ensures Abandoned(s, schedule[..k]) ==> Abandoned(s, schedule[..k + 1])
  {
    AfterNext(s, schedule[..k], schedule[k]);
    assert schedule[..k + 1] == schedule[..k] + [schedule[k]];
  }

  lemma {:induction false} AfterFirst(s: State, event: Event, schedule: seq<Event>)
    ensures AfterAll(s, [event] + schedule) == AfterAll(After(s, event), schedule)
  {
    if schedule == [] {
      assert [event] + schedule == [event] && Init([event]) == [];
    } else {
      AfterFirst(s, event, Init(schedule));
      assert Init([event] + schedule) == [event] + Init(schedule);
    }
  }

  lemma NoEvents(s: State, schedule: seq<Event>)
    ensures AfterAll(s, schedule[..0]) == s
  {
  }

  /** When an event cannot happen. */
  lemma NothingHappens(s: State, event: Event)
    ensures event.AgentRuns? && s.agent.heartbeatSent ==> After(s, event) == s
    ensures event.AgentReceives? && (!s.agent.heartbeatSent || s.agent.stopped || s.toAgent == []) ==>
              After(s, event) == s
    ensures event.FrontendReceives? && (!s.loop.running || s.toFrontend == []) ==> After(s, event) == s
    ensures event.FrontendTicks? && !s.loop.running ==> After(s, event) == s
    ensures event.MainGoesOn? && (s.loop.running || s.loop.stage == Over) ==> After(s, event) == s
  {
    hide AgentHandles, ExperimentEnds, FrontendHandles, Ticks, GoesOn;
  }

  lemma NewsHandled(s: State)
    requires s.loop.running && s.toFrontend != [] && (s.toFrontend[0].Terminated? || s.toFrontend[0].Heartbeat?)
    ensures forall reinstrumentation :: After(s, FrontendReceives(reinstrumentation)) ==
              s.(toFrontend := s.toFrontend[1..],
                 child := if s.toFrontend[0].Terminated? then s.child.(applTerminated := true)
                          else if s.child.status == Initial then s.child.(status := Started, propertiesSent := false)
                          else s.child.(statusReinit := Started, propertiesSent := false))
  {
    hide Continues;
    if s.toFrontend[0].Heartbeat? {
      match s.child.status {
        case Initial =>
        case Started =>
      }
    }
  }

  lemma NoTimerNoTick(s: State, unregistered: bool, timedOut: bool)
    requires s.loop.timer == NoTimer
    ensures Ticks(s, unregistered, timedOut) == s
  {
  }
}
