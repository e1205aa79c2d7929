/** What an agent call runs and records, over every run: only what was asked for and the configuration's own entry
    allows, recorded before and after, with the outcome it had (src/main.rs). */
module AgentLanguage {
  import opened Execution
  import opened Workplace
  import opened Lifecycle
  import opened LifecycleInvariant
  import opened LifecycleSteps
  import opened Guarantees
  import Policy
  import StoreOperations

  // ---------------------------------------------------------------- what is allowed, and what is said of it

  /** What a call asks for, and the configuration it finds. */
  datatype Call = Call(
    id: Uuid, request: ExecutionRequest, inScope: bool, purpose: string, home: Home, config: Policy.Config)

  /** A purpose is given: not only white space, and at most 4096 bytes. */
  predicate Purposeful(call: Call) {
    (exists c <- call.purpose :: !call.home.isWhite(c)) && |call.home.bytes(call.purpose)| <= 4096
  }

  /** May run without review: nothing that writes, runs code or posts, nothing out of scope, and the entry for it says
      so. */
  predicate Permitted(call: Call) {
    match call.request
    case Add(_, _) => call.config.add.Allow?
    case GitStatus => call.config.gitStatus.Allow?
    case ReadFile(_) => call.inScope && call.config.readFile.Allow?
    case HttpRequest(Get, _, _) => call.inScope && call.config.httpGet.Allow?
    case _ => false
  }

  /** Is to be reviewed. */
  predicate Reviewed(call: Call) {
    match call.request
    case WriteFile(_, _) => call.inScope && call.config.writeFile.Review?
    case RunCargoTest => call.config.runCargoTest.Review?
    case HttpRequest(Post, _, _) => call.inScope && call.config.httpPost.Review?
    case _ => false
  }

  /** The events of one call, in order. */
  function EventsOf(trace: seq<AgentEvent>, id: Uuid): seq<AgentEvent> {
    if trace == [] then []
    else
      var front, e := EventsOf(trace[..|trace| - 1], id), trace[|trace| - 1];
      if e.id == id then front + [e] else front
  }

  /** When a call can end with this error. */
  predicate Deserved(call: Call, error: AgentError) {
    match error
    case InvalidPurpose => !Purposeful(call)
    case NotAudited => Purposeful(call) && Permitted(call)
    case NotCaptured => Reviewed(call) && !call.request.HttpRequest?
    case NotInserted(_) => Reviewed(call)
  }

  /** A call that is permitted records its start, runs what was asked for, and records how that ended; any other
      records that nothing was executed, and runs nothing. An error says what was wrong. At any time it may have got
      only part of the way. */
  predicate Says(call: Call, events: seq<AgentEvent>) {
    var start := AgentLogged(call.id, PreExecution, NotExecuted);
    || events == []
    || (Purposeful(call) && Permitted(call) &&
        ( || events == [start]
          || (exists ok :: events == [start, AgentInvoked(call.id, call.request, ok)])
          || (exists ok :: events == [start, AgentInvoked(call.id, call.request, ok),
                                      AgentLogged(call.id, Completion, if ok then Success else Failed)])))
    || (Purposeful(call) && !Permitted(call) && events == [AgentLogged(call.id, Completion, NotExecuted)])
    || (|events| == 1 && events[0].AgentFailed? && events[0].id == call.id && Deserved(call, events[0].error))
  }

  // ---------------------------------------------------------------- where a call stands

  predicate Stands(call: Call, agent: AgentState, events: seq<AgentEvent>) {
    var start := AgentLogged(call.id, PreExecution, NotExecuted);
    match agent
    case Holding(review) =>
      events == [] && Reviewed(call) && review.request == call.request && review.purpose == call.purpose
    case Reporting(request, decision, purpose) =>
      && events == [] && request == call.request && purpose == call.purpose
      && (decision.Allow? <==> Permitted(call))
    case AuditingStart(request) => events == [] && request == call.request && Purposeful(call) && Permitted(call)
    case Running(request) => events == [start] && request == call.request && Purposeful(call) && Permitted(call)
    case AuditingEnd(outcome) =>
      && Purposeful(call)
      && if Permitted(call) then
           exists ok :: events == [start, AgentInvoked(call.id, call.request, ok)]
                        && outcome == if ok then Success else Failed
         else events == [] && outcome == NotExecuted
  }

  ghost predicate CallOk(s: State, call: Call) {
    && call.id in s.used && s.home == call.home
    && Says(call, EventsOf(s.agentTrace, call.id))
    && (call.id in s.agents ==> Stands(call, s.agents[call.id], EventsOf(s.agentTrace, call.id)))
  }

  // ---------------------------------------------------------------- events

  lemma EventAdded(trace: seq<AgentEvent>, e: AgentEvent, id: Uuid)
    ensures EventsOf(trace + [e], id) == if e.id == id then EventsOf(trace, id) + [e] else EventsOf(trace, id)
  {
    assert (trace + [e])[..|trace|] == trace;
  }

  lemma {:induction false} NoEvents(trace: seq<AgentEvent>, id: Uuid)
    requires forall e <- trace :: e.id != id
    ensures EventsOf(trace, id) == []
  {
    if trace != [] {
      assert trace[|trace| - 1] in trace;
      NoEvents(trace[..|trace| - 1], id);
    }
  }

  // ---------------------------------------------------------------- steps

  /** The policy lets run what is permitted, and asks for review of what is reviewed. */
  lemma PolicyPermits(call: Call)
    requires Policy.ValidConfig(call.config)
    ensures var decision := Policy.EvaluateRequest(call.request, call.inScope, call.config).decision;
            && (decision.Allow? <==> Permitted(call)) && (decision.Review? <==> Reviewed(call))
  {
    Policy.EvaluateMeaning(call.request, call.inScope, call.config);
    Policy.ValidConfigTable(call.config);
  }

  lemma StartedCall(s: State, call: Call, evidence: Evidence)
    requires Inv(s) && call.id !in s.used && EventsOf(s.agentTrace, call.id) == []
    requires s.home == call.home && s.config == call.config
    ensures CallOk(AgentStart(s, call.id, call.request, call.inScope, call.purpose, evidence), call)
  {
    PolicyPermits(call);
    assert IdInv(s, call.id);
    EventAdded(s.agentTrace, AgentFailed(call.id, NotCaptured), call.id);
    assert Reviewed(call) && !call.request.HttpRequest? ==> Deserved(call, NotCaptured);
  }

  lemma InsertedCall(s: State, call: Call, c: Choice)
    requires CallOk(s, call) && call.id in s.agents && s.agents[call.id].Holding?
    ensures CallOk(AgentStep(s, call.id, c), call)
  {
    var result := StoreOperations.Insert(s.store, s.agents[call.id].review, c.save).1;
    if result.Err? {
      EventAdded(s.agentTrace, AgentFailed(call.id, NotInserted(result.error)), call.id);
      assert Deserved(call, NotInserted(result.error));
    }
  }

  lemma ReportedCall(s: State, call: Call, c: Choice)
    requires CallOk(s, call) && call.id in s.agents && s.agents[call.id].Reporting?
    ensures CallOk(AgentStep(s, call.id, c), call)
  {
    EventAdded(s.agentTrace, AgentFailed(call.id, InvalidPurpose), call.id);
    assert !Purposeful(call) ==> Deserved(call, InvalidPurpose);
  }

  lemma StartingCall(s: State, call: Call, c: Choice)
    requires CallOk(s, call) && call.id in s.agents && s.agents[call.id].AuditingStart?
    ensures CallOk(AgentStep(s, call.id, c), call)
  {
    EventAdded(s.agentTrace, AgentFailed(call.id, NotAudited), call.id);
    EventAdded(s.agentTrace, AgentLogged(call.id, PreExecution, NotExecuted), call.id);
    assert Deserved(call, NotAudited);
  }

  lemma RunningCall(s: State, call: Call, c: Choice)
    requires CallOk(s, call) && call.id in s.agents && s.agents[call.id].Running?
    ensures CallOk(AgentStep(s, call.id, c), call)
  {
    var e := AgentInvoked(call.id, call.request, c.valid);
    EventAdded(s.agentTrace, e, call.id);
    assert !IsPrivileged(call.request);
    assert [AgentLogged(call.id, PreExecution, NotExecuted)] + [e]
           == [AgentLogged(call.id, PreExecution, NotExecuted), e];
  }

  lemma EndSays(call: Call, outcome: Outcome, events: seq<AgentEvent>)
    requires Stands(call, AuditingEnd(outcome), events)
    ensures Says(call, events + [AgentLogged(call.id, Completion, outcome)])
  {
    var last := AgentLogged(call.id, Completion, outcome);
    if Permitted(call) {
      var start := AgentLogged(call.id, PreExecution, NotExecuted);
      var ok :| events == [start, AgentInvoked(call.id, call.request, ok)] && outcome == if ok then Success else Failed;
      assert events + [last] == [start, AgentInvoked(call.id, call.request, ok), last];
    } else {
      assert events + [last] == [last];
    }
  }

  lemma EndingCall(s: State, call: Call, c: Choice)
    requires CallOk(s, call) && call.id in s.agents && s.agents[call.id].AuditingEnd?
    ensures CallOk(AgentStep(s, call.id, c), call)
  {
    var outcome := s.agents[call.id].outcome;
    EventAdded(s.agentTrace, AgentLogged(call.id, Completion, outcome), call.id);
    EndSays(call, outcome, EventsOf(s.agentTrace, call.id));
    var next := AgentStep(s, call.id, c);
    assert call.id !in next.agents && next.used == s.used && next.home == s.home;
  }

  lemma OwnStep(s: State, call: Call, c: Choice)
    requires CallOk(s, call) && call.id in s.agents
    ensures CallOk(AgentStep(s, call.id, c), call)
  {
    match s.agents[call.id]
    case Holding(_) => InsertedCall(s, call, c);
    case Reporting(_, _, _) => ReportedCall(s, call, c);
    case AuditingStart(_) => StartingCall(s, call, c);
    case Running(_) => RunningCall(s, call, c);
    case AuditingEnd(_) => EndingCall(s, call, c);
  }

  /** What a step can do to a call that is not its own: nothing, or lose it. */
  ghost predicate Elsewhere(s: State, next: State, id: Uuid) {
    && next.home == s.home && s.used <= next.used
    && EventsOf(next.agentTrace, id) == EventsOf(s.agentTrace, id)
    && (id in next.agents ==> id in s.agents && next.agents[id] == s.agents[id])
  }

  lemma ElsewhereKeeps(s: State, next: State, call: Call)
    requires CallOk(s, call) && Elsewhere(s, next, call.id)
    ensures CallOk(next, call)
  {
  }

  /** A step adds at most one event, of its own call. */
  lemma OneEvent(s: State, k: Uuid, c: Choice) returns (e: AgentEvent)
    requires k in s.agents
    ensures var next := AgentStep(s, k, c);
            && e.id == k && (next.agentTrace == s.agentTrace || next.agentTrace == s.agentTrace + [e])
            && next.home == s.home && next.used == s.used
            && forall id | id != k :: id in next.agents ==> id in s.agents && next.agents[id] == s.agents[id]
  {
    match s.agents[k]
    case Holding(review) =>
      var result := StoreOperations.Insert(s.store, review, c.save).1;
      e := AgentFailed(k, if result.Err? then NotInserted(result.error) else NotCaptured);
    case Reporting(_, _, _) => e := AgentFailed(k, InvalidPurpose);
    case AuditingStart(_) =>
      e := if c.audit.Recorded? then AgentLogged(k, PreExecution, NotExecuted) else AgentFailed(k, NotAudited);
    case Running(request) =>
      e := if IsPrivileged(request) then AgentRefused(k, request) else AgentInvoked(k, request, c.valid);
    case AuditingEnd(outcome) => e := AgentLogged(k, Completion, outcome);
  }

  lemma OtherStep(s: State, k: Uuid, c: Choice, id: Uuid)
    requires k in s.agents && k != id
    ensures Elsewhere(s, AgentStep(s, k, c), id)
  {
    var e := OneEvent(s, k, c);
    EventAdded(s.agentTrace, e, id);
  }

  lemma OtherStart(s: State, k: Uuid, request: ExecutionRequest, inScope: bool, purpose: string, evidence: Evidence,
                   id: Uuid)
    requires k != id
    ensures Elsewhere(s, AgentStart(s, k, request, inScope, purpose, evidence), id)
  {
    EventAdded(s.agentTrace, AgentFailed(k, NotCaptured), id);
  }

  lemma StepCall(s: State, step: Step, call: Call)
    requires Inv(s) && Enabled(s, step) && CallOk(s, call)
    ensures CallOk(Apply(s, step), call)
  {
    match step
    case AgentContinues(k, c) =>
      if k == call.id {
        OwnStep(s, call, c);
      } else {
        OtherStep(s, k, c, call.id);
        ElsewhereKeeps(s, Apply(s, step), call);
      }
    case AgentBegins(k, request, inScope, purpose, evidence, _) =>
      OtherStart(s, k, request, inScope, purpose, evidence, call.id);
      ElsewhereKeeps(s, Apply(s, step), call);
    case AdminContinues(c) =>
      StepFrame(s, c);
      ElsewhereKeeps(s, Apply(s, step), call);
    case _ => ElsewhereKeeps(s, Apply(s, step), call);
  }

  // ---------------------------------------------------------------- runs

  /** Ids are drawn before anything is said of them. */
  ghost predicate EventsDrawn(s: State) {
    forall e <- s.agentTrace :: e.id in s.used
  }

  lemma StepDrawn(s: State, step: Step)
    requires Inv(s) && Enabled(s, step) && EventsDrawn(s)
    ensures EventsDrawn(Apply(s, step)) && s.used <= Apply(s, step).used
    ensures forall id | id in Apply(s, step).used && id !in s.used :: step.AgentBegins? && step.id == id
  {
    match step
    case AgentContinues(k, c) =>
      assert IdInv(s, k);
      var e := OneEvent(s, k, c);
    case AdminContinues(c) => StepFrame(s, c);
    case _ =>
  }

  lemma {:induction false} RunDrawn(run: seq<State>, k: nat)
    requires IsRun(run) && k < |run|
    ensures EventsDrawn(run[k])
  {
    if k == 0 {
      RunStarts(run);
    } else {
      RunDrawn(run, k - 1);
      var step := StepOf(run, k);
      StepDrawn(run[k - 1], step);
    }
  }

  /** Step `j` of the run is the beginning of this call. */
  ghost predicate BeganAt(run: seq<State>, j: nat, call: Call) {
    && j + 1 < |run| && call.home == run[j].home && call.config == run[j].config
    && exists evidence, reading ::
         Taken(run[j], AgentBegins(call.id, call.request, call.inScope, call.purpose, evidence, reading), run[j + 1])
  }

  lemma {:induction false} CallRun(run: seq<State>, j: nat, call: Call, k: nat)
    requires IsRun(run) && BeganAt(run, j, call) && j < k < |run|
    ensures CallOk(run[k], call)
    decreases k
  {
    if k == j + 1 {
      var evidence, reading :|
        Taken(run[j], AgentBegins(call.id, call.request, call.inScope, call.purpose, evidence, reading), run[j + 1]);
      RunInv(run, j);
      RunDrawn(run, j);
      NoEvents(run[j].agentTrace, call.id);
      StartedCall(run[j], call, evidence);
    } else {
      CallRun(run, j, call, k - 1);
      var step := StepOf(run, k);
      StepCall(run[k - 1], step, call);
    }
  }

  lemma {:induction false} DrawnByCall(run: seq<State>, k: nat, id: Uuid) returns (j: nat, call: Call)
    requires IsRun(run) && k < |run| && id in run[k].used
    ensures j < k && call.id == id && BeganAt(run, j, call)
  {
    RunStarts(run);
    if id in run[k - 1].used {
      j, call := DrawnByCall(run, k - 1, id);
    } else {
      var step := StepOf(run, k);
      RunDrawn(run, k - 1);
      StepDrawn(run[k - 1], step);
      j := k - 1;
      call := Call(id, step.request, step.inScope, step.purpose, run[j].home, run[j].config);
      assert Taken(run[j], step, run[k]);
    }
  }

  lemma {:induction false} EventIn(trace: seq<AgentEvent>, e: AgentEvent)
    requires e in trace
    ensures e in EventsOf(trace, e.id)
  {
    if trace[|trace| - 1] != e {
      assert e in trace[..|trace| - 1];
      EventIn(trace[..|trace| - 1], e);
    }
  }

  /** In every run, the events of a call are those of its language, from its beginning on, whatever the other calls,
      the administrator, stops and restarts do in between. */
  lemma CallsSayWhatTheyDid(run: seq<State>, j: nat, call: Call, k: nat)
    requires IsRun(run) && BeganAt(run, j, call) && j < k < |run|
    ensures Says(call, EventsOf(run[k].agentTrace, call.id))
  {
    CallRun(run, j, call, k);
  }

  /** In every run, whatever an agent runs without review was asked for by the call that drew the id, is permitted by
      the configuration's own entry for it, and has a record of its start right before it among the call's events. */
  lemma OnlyPermittedRuns(run: seq<State>, k: nat, a: nat) returns (j: nat, call: Call)
    requires IsRun(run) && k < |run| && a < |run[k].agentTrace| && run[k].agentTrace[a].AgentInvoked?
    ensures j < k && BeganAt(run, j, call) && call.id == run[k].agentTrace[a].id
    ensures call.request == run[k].agentTrace[a].request
    ensures Purposeful(call) && Permitted(call)
    ensures var events := EventsOf(run[k].agentTrace, call.id);
            |events| >= 2 && events[..2] == [AgentLogged(call.id, PreExecution, NotExecuted), run[k].agentTrace[a]]
  {
    var e := run[k].agentTrace[a];
    RunDrawn(run, k);
    j, call := DrawnByCall(run, k, e.id);
    CallsSayWhatTheyDid(run, j, call, k);
    EventIn(run[k].agentTrace, e);
  }
}
