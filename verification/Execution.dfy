/** The requests an agent can make and the review the gateway keeps for one of them
    (src/execution.rs, src/pending_review.rs, src/filesystem.rs). */
module Execution {
  import opened Wrappers

  // A version-4 UUID; only equality matters here.
  type Uuid = nat

  datatype HttpMethod = Get | Post

  datatype ExecutionRequest =
    | Add(left: int, right: int)
    | ReadFile(path: string)
    | WriteFile(path: string, content: string)
    | GitStatus
    | RunCargoTest
    | HttpRequest(verb: HttpMethod, url: string, body: Option<string>)

  datatype WriteTargetState = Missing | Existing(sha256: string)

  datatype PendingReview = PendingReview(
    requestId: Uuid,
    request: ExecutionRequest,
    purpose: string,
    workspaceFingerprint: Option<string>,
    writeTargetState: Option<WriteTargetState>)

  /** What `PersistedPendingReview::try_from` accepts. */
  predicate Persistable(pending: PendingReview) {
    match pending.request
    case WriteFile(_, _) => pending.writeTargetState.Some?
    case RunCargoTest => pending.workspaceFingerprint.Some?
    case HttpRequest(verb, _, _) => verb.Post?
    case _ => false
  }

  /** The shape the three constructors of a pending review build for the three reviewable operations:
      exactly the evidence the operation needs and no other. */
  predicate Reviewable(pending: PendingReview) {
    match pending.request
    case WriteFile(_, _) => pending.writeTargetState.Some? && pending.workspaceFingerprint.None?
    case RunCargoTest => pending.workspaceFingerprint.Some? && pending.writeTargetState.None?
    case HttpRequest(verb, _, _) =>
      verb.Post? && pending.workspaceFingerprint.None? && pending.writeTargetState.None?
    case _ => false
  }

  /** The operations that may run only after a human review. */
  predicate IsPrivileged(request: ExecutionRequest) {
    || request.WriteFile?
    || request.RunCargoTest?
    || (request.HttpRequest? && request.verb.Post?)
  }
}
