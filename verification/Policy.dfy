/** Capability policy: validation of a configuration and evaluation of a request against it
    (src/config.rs, src/policy.rs, src/main.rs). */
module Policy {
  import opened Wrappers
  import opened Execution

  datatype Decision = Allow | Review | Block

  datatype Reason = Safe | Write | ExternalWrite | CodeExecution | OutOfScope

  datatype Evaluation = Evaluation(decision: Decision, reason: Reason)

  datatype Config = Config(
    add: Decision, readFile: Decision, writeFile: Decision, gitStatus: Decision,
    runCargoTest: Decision, httpGet: Decision, httpPost: Decision)

  datatype Capability = AddCap | ReadFileCap | WriteFileCap | GitStatusCap | RunCargoTestCap | HttpGetCap | HttpPostCap

  function DecisionFor(config: Config, capability: Capability): Decision {
    match capability
    case AddCap => config.add
    case ReadFileCap => config.readFile
    case WriteFileCap => config.writeFile
    case GitStatusCap => config.gitStatus
    case RunCargoTestCap => config.runCargoTest
    case HttpGetCap => config.httpGet
    case HttpPostCap => config.httpPost
  }

  datatype ConfigError = ReviewNotSupported(capability: Capability) | ReviewBypassed(capability: Capability)

  const NEVER_REVIEWED: seq<Capability> := [AddCap, ReadFileCap, GitStatusCap, HttpGetCap]
  const ALWAYS_REVIEWED: seq<Capability> := [WriteFileCap, RunCargoTestCap, HttpPostCap]

  /** No safe capability asks for review, and no privileged one is allowed without it. */
  predicate ValidConfig(config: Config) {
    && (forall c <- NEVER_REVIEWED :: !DecisionFor(config, c).Review?)
    && (forall c <- ALWAYS_REVIEWED :: !DecisionFor(config, c).Allow?)
  }

  /** The two table loops of the capability policy check: the first offending capability is reported. */
  method Validate(config: Config) returns (result: Result<(), ConfigError>)
    ensures result.Ok? <==> ValidConfig(config)
    ensures result.Err? && result.error.ReviewNotSupported? ==>
              result.error.capability in NEVER_REVIEWED && DecisionFor(config, result.error.capability).Review?
    ensures result.Err? && result.error.ReviewBypassed? ==>
              result.error.capability in ALWAYS_REVIEWED && DecisionFor(config, result.error.capability).Allow?
  {
    for i := 0 to |NEVER_REVIEWED|
      invariant forall k | 0 <= k < i :: !DecisionFor(config, NEVER_REVIEWED[k]).Review?
    {
      if DecisionFor(config, NEVER_REVIEWED[i]).Review? {
        return Err(ReviewNotSupported(NEVER_REVIEWED[i]));
      }
    }
    for i := 0 to |ALWAYS_REVIEWED|
      invariant forall k | 0 <= k < i :: !DecisionFor(config, ALWAYS_REVIEWED[k]).Allow?
    {
      if DecisionFor(config, ALWAYS_REVIEWED[i]).Allow? {
        return Err(ReviewBypassed(ALWAYS_REVIEWED[i]));
      }
    }
    return Ok(());
  }

  function EvaluateOperation(capability: Capability, config: Config): Evaluation {
    Evaluation(
      DecisionFor(config, capability),
      match capability
      case WriteFileCap => Write
      case RunCargoTestCap => CodeExecution
      case HttpPostCap => ExternalWrite
      case _ => Safe)
  }

  /** `inScope` is the answer of the destination or path check the request kind calls for; the kinds
      without such a check ignore it. */
  function EvaluateRequest(request: ExecutionRequest, inScope: bool, config: Config): Evaluation {
    match request
    case Add(_, _) => EvaluateOperation(AddCap, config)
    case HttpRequest(verb, _, _) =>
      if !inScope then Evaluation(Block, OutOfScope)
      else if verb.Get? then EvaluateOperation(HttpGetCap, config)
      else EvaluateOperation(HttpPostCap, config)
    case RunCargoTest => EvaluateOperation(RunCargoTestCap, config)
    case ReadFile(_) =>
      if !inScope then Evaluation(Block, OutOfScope) else EvaluateOperation(ReadFileCap, config)
    case WriteFile(_, _) =>
      if !inScope then Evaluation(Block, OutOfScope) else EvaluateOperation(WriteFileCap, config)
    case GitStatus => EvaluateOperation(GitStatusCap, config)
  }

  /** Each kind of request has its own entry and no other, and what is out of scope is blocked whatever that says. */
  lemma EvaluateMeaning(request: ExecutionRequest, inScope: bool, config: Config)
    ensures var evaluation := EvaluateRequest(request, inScope, config);
            match request
            case Add(_, _) => evaluation == Evaluation(config.add, Safe)
            case GitStatus => evaluation == Evaluation(config.gitStatus, Safe)
            case RunCargoTest => evaluation == Evaluation(config.runCargoTest, CodeExecution)
            case ReadFile(_) =>
              evaluation == if inScope then Evaluation(config.readFile, Safe) else Evaluation(Block, OutOfScope)
            case WriteFile(_, _) =>
              evaluation == if inScope then Evaluation(config.writeFile, Write) else Evaluation(Block, OutOfScope)
            case HttpRequest(Get, _, _) =>
              evaluation == if inScope then Evaluation(config.httpGet, Safe) else Evaluation(Block, OutOfScope)
            case HttpRequest(Post, _, _) =>
              evaluation ==
              if inScope then Evaluation(config.httpPost, ExternalWrite) else Evaluation(Block, OutOfScope)
  {
  }

  /** No entry but the request's own has any say. */
  lemma OwnEntryDecides(request: ExecutionRequest, inScope: bool, config: Config, other: Config)
    requires request.Add? ==> other.add == config.add
    requires request.GitStatus? ==> other.gitStatus == config.gitStatus
    requires request.RunCargoTest? ==> other.runCargoTest == config.runCargoTest
    requires request.ReadFile? ==> other.readFile == config.readFile
    requires request.WriteFile? ==> other.writeFile == config.writeFile
    requires request.HttpRequest? && request.verb.Get? ==> other.httpGet == config.httpGet
    requires request.HttpRequest? && request.verb.Post? ==> other.httpPost == config.httpPost
    ensures EvaluateRequest(request, inScope, other) == EvaluateRequest(request, inScope, config)
  {
    EvaluateMeaning(request, inScope, config);
    EvaluateMeaning(request, inScope, other);
  }

  /** Four entries may not ask for review, and the other three may not allow. */
  lemma ValidConfigTable(config: Config)
    ensures ValidConfig(config) <==>
            && !config.add.Review? && !config.readFile.Review? && !config.gitStatus.Review? && !config.httpGet.Review?
            && !config.writeFile.Allow? && !config.runCargoTest.Allow? && !config.httpPost.Allow?
  {
    if ValidConfig(config) {
      assert forall k | 0 <= k < |NEVER_REVIEWED| :: !DecisionFor(config, NEVER_REVIEWED[k]).Review?;
      assert forall k | 0 <= k < |ALWAYS_REVIEWED| :: !DecisionFor(config, ALWAYS_REVIEWED[k]).Allow?;
      assert NEVER_REVIEWED[0].AddCap? && NEVER_REVIEWED[1].ReadFileCap? && NEVER_REVIEWED[2].GitStatusCap?
        && NEVER_REVIEWED[3].HttpGetCap?;
      assert ALWAYS_REVIEWED[0].WriteFileCap? && ALWAYS_REVIEWED[1].RunCargoTestCap? && ALWAYS_REVIEWED[2].HttpPostCap?;
    }
  }

  function ReviewReason(request: ExecutionRequest): Option<Reason> {
    match request
    case WriteFile(_, _) => Some(Write)
    case RunCargoTest => Some(CodeExecution)
    case HttpRequest(verb, _, _) => if verb.Post? then Some(ExternalWrite) else None
    case _ => None
  }

  /** The reason a review is recorded with is that of its evaluation. */
  lemma ReviewReasonMeaning(request: ExecutionRequest, config: Config)
    ensures ReviewReason(request).Some? <==> IsPrivileged(request)
    ensures IsPrivileged(request) ==> ReviewReason(request) == Some(EvaluateRequest(request, true, config).reason)
  {
  }

  /** A configuration is valid exactly when review is asked for privileged operations only and nothing
      privileged is ever allowed outright: what validation is for, stated on the requests themselves. */
  lemma ValidConfigSeparatesPrivilege(config: Config)
    ensures ValidConfig(config) <==>
            forall request, inScope {:trigger EvaluateRequest(request, inScope, config)} ::
              var decision := EvaluateRequest(request, inScope, config).decision;
              (decision.Review? ==> IsPrivileged(request)) && (decision.Allow? ==> !IsPrivileged(request))
  {
    var samples := [
      EvaluateRequest(Add(0, 0), true, config), EvaluateRequest(ReadFile(""), true, config),
      EvaluateRequest(GitStatus, true, config), EvaluateRequest(HttpRequest(Get, "", None), true, config),
      EvaluateRequest(WriteFile("", ""), true, config), EvaluateRequest(RunCargoTest, true, config),
      EvaluateRequest(HttpRequest(Post, "", None), true, config)];
    assert AddCap == NEVER_REVIEWED[0] && ReadFileCap == NEVER_REVIEWED[1] && GitStatusCap == NEVER_REVIEWED[2]
      && HttpGetCap == NEVER_REVIEWED[3];
    assert WriteFileCap == ALWAYS_REVIEWED[0] && RunCargoTestCap == ALWAYS_REVIEWED[1]
      && HttpPostCap == ALWAYS_REVIEWED[2];
  }
}
