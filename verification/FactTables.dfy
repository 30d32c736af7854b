/** What single facts say, read off their fields: how a tool item ended, what an approval request asked for,
    what an answer decided. The mappers of the reducer are shown to agree with these tables. */
module FactTables {
  import opened Text
  import opened Protocol
  import opened AnalyticsModel

  // ----- tool items -----

  predicate HasId(item: Item) {
    !item.SubAgentActivity? && !item.UntrackedItem?
  }

  predicate HasStatus(item: Item) {
    HasId(item) && !item.WebSearch? && !item.ImageGeneration?
  }

  predicate Underway(item: Item) {
    HasStatus(item) && item.status.InProgress?
  }

  predicate WasDeclined(item: Item) {
    HasStatus(item) && item.status.Declined?
  }

  /** Image generation says how it went in free text. */
  predicate HasFailed(item: Item) {
    if item.ImageGeneration? then item.statusText == "failed" || item.statusText == "error"
    else HasStatus(item) && item.status.Failed?
  }

  predicate IsTimed(item: Item) {
    item.CommandExecution? || item.McpToolCall? || item.DynamicToolCall?
  }

  function NonNegative(x: int): Option<nat> {
    if x >= 0 then Some(x) else None
  }

  function EndOf(item: Item): ToolOutcome {
    ToolOutcome(
      if WasDeclined(item) then ItemRejected else if HasFailed(item) then ItemFailed else ItemDone,
      if WasDeclined(item) then Some(ApprovalDenied) else if HasFailed(item) then Some(ToolError) else None,
      if IsTimed(item) && item.durationMs.Some? then NonNegative(item.durationMs.value) else None)
  }

  function NameOf(item: Item): string
    requires HasId(item)
  {
    if item.FileChange? then "apply_patch"
    else if item.WebSearch? then "web_search"
    else if item.ImageGeneration? then "image_generation"
    else item.tool
  }

  /** An item has an outcome exactly when it is a tool item that is not under way. */
  lemma OutcomesAreEnds(item: Item)
    requires HasId(item)
    ensures OutcomeOf(item) == if Underway(item) then None else Some(EndOf(item))
    ensures ToolName(item) == NameOf(item)
  {
  }

  // ----- answers -----

  predicate Accepts(answer: Answer) {
    || answer.CommandAccepted? || answer.CommandAcceptedForSession? || answer.CommandAcceptedWithPolicy?
    || (answer.CommandNetworkPolicy? && answer.allow)
    || answer.FileAccepted? || answer.FileAcceptedForSession?
    || (answer.PermissionsEffective? && !answer.empty)
  }

  predicate Declines(answer: Answer) {
    || answer.CommandDeclined? || answer.FileDeclined?
    || (answer.CommandNetworkPolicy? && !answer.allow)
    || (answer.PermissionsEffective? && answer.empty)
  }

  predicate ForSession(answer: Answer) {
    || answer.CommandAcceptedForSession? || answer.FileAcceptedForSession?
    || (answer.PermissionsEffective? && !answer.empty && answer.session)
  }

  /** An answer that neither accepts nor declines aborts the review. */
  function Decision(answer: Answer): Verdict {
    Verdict(
      if Accepts(answer) then Approved else if Declines(answer) then Denied else Aborted,
      if ForSession(answer) then SessionApproval
      else if answer.CommandAcceptedWithPolicy? then ExecPolicyAmendment
      else if answer.CommandNetworkPolicy? then NetworkPolicyAmendment
      else NoResolution)
  }

  function UserApproval(answer: Answer): Approval {
    if ForSession(answer) then UserApprovedForSession
    else if Accepts(answer) then UserApproved
    else if Declines(answer) then UserDenied
    else UserAborted
  }

  /** The item's final approval is what the answer decided: denied exactly when it declines. */
  lemma AnswersDecide(answer: Answer)
    ensures VerdictOf(answer) == Decision(answer)
    ensures FinalApproval(User, VerdictOf(answer)) == UserApproval(answer)
    ensures FinalApproval(User, VerdictOf(answer)) == UserDenied <==> Declines(answer)
  {
  }

  /** A guardian that timed out counts as one that gave up. */
  function GuardianStatusOf(status: GuardianStatus): ReviewStatus
    requires !status.ReviewInProgress?
  {
    if status == ReviewApproved then Approved
    else if status == ReviewDenied then Denied
    else if status == ReviewTimedOut then TimedOut
    else Aborted
  }

  function GuardianApprovalOf(status: GuardianStatus): Approval
    requires !status.ReviewInProgress?
  {
    if status == ReviewApproved then GuardianApproved else if status == ReviewDenied then GuardianDenied else GuardianAborted
  }

  lemma GuardiansDecide(status: GuardianStatus)
    ensures GuardianVerdict(status).None? <==> status.ReviewInProgress?
    ensures !status.ReviewInProgress? ==>
      && GuardianVerdict(status) == Some(Verdict(GuardianStatusOf(status), NoResolution))
      && FinalApproval(Guardian, GuardianVerdict(status).value) == GuardianApprovalOf(status)
  {
  }

  // ----- reviews -----

  predicate AsksNetwork(ask: Ask) {
    match ask
    case AskCommand(context, amendments, additional, _) => context || amendments || additional == Some(true)
    case AskFileChange(_) => false
    case AskPermissions(network, _) => network
  }

  predicate AsksMore(ask: Ask) {
    match ask
    case AskCommand(_, _, additional, _) => additional.Some?
    case AskFileChange(grantRoot) => grantRoot
    case AskPermissions(network, fileSystem) => network || fileSystem
  }

  predicate GuardsNetwork(action: GuardianAction) {
    action.GuardNetwork? || (action.GuardPermissions? && action.network)
  }

  predicate GuardsMore(action: GuardianAction) {
    action.GuardPatch? || action.GuardNetwork? || (action.GuardPermissions? && (action.network || action.fileSystem))
  }

  /** One rule for every review: an intercepted exec goes before network access, that before any other wish
      for more permissions. */
  function TriggerFor(intercepted: bool, network: bool, more: bool): Trigger {
    if intercepted then ExecveIntercept else if network then NetworkPolicyDenial else if more then SandboxDenial else Initial
  }

  function SubjectOf(ask: Ask): SubjectKind {
    if ask.AskPermissions? then PermissionsSubject
    else if ask.AskFileChange? then FileSubject
    else if ask.networkContext then NetworkSubject
    else CommandSubject
  }

  function GuardedSubject(action: GuardianAction): SubjectKind {
    if action.GuardPermissions? then PermissionsSubject
    else if action.GuardPatch? then FileSubject
    else if action.GuardNetwork? then NetworkSubject
    else if action.GuardMcp? then McpSubject
    else CommandSubject
  }

  /** The name goes with the subject; only for a tool of a server is it the tool's own. */
  function SubjectName(subject: SubjectKind, tool: string): string {
    match subject
    case CommandSubject => "command_execution"
    case FileSubject => "apply_patch"
    case McpSubject => tool
    case PermissionsSubject => "permissions"
    case NetworkSubject => "network_access"
  }

  /** The review that an approval request with a valid start time opens. */
  function AskedReview(fact: Fact): Review
    requires fact.ReviewAsked? && fact.startedAtMs >= 0
  {
    var subject := SubjectOf(fact.ask);
    Review(fact.threadId, fact.turnId, Some(fact.itemId), OfRequest(fact.requestId), subject, SubjectName(subject, ""),
      TriggerFor(fact.ask.AskCommand? && fact.ask.intercepted, AsksNetwork(fact.ask), AsksMore(fact.ask)),
      fact.startedAtMs, AsksMore(fact.ask), AsksNetwork(fact.ask))
  }

  lemma AskOpensReview(fact: Fact)
    requires fact.ReviewAsked?
    ensures Opened(fact.requestId, fact.threadId, fact.turnId, fact.itemId, fact.startedAtMs, fact.ask) ==
      if fact.startedAtMs >= 0 then Some(AskedReview(fact)) else None
  {
    assert fact.ask.AskCommand? && fact.ask.additional.Some? ==> fact.ask.additional == Some(fact.ask.additional.value);
  }

  /** The review that a guardian's notification is about. */
  function GuardedReview(fact: Fact): Review
    requires fact.GuardianReviewed? && fact.startedAtMs >= 0
  {
    var action, subject := fact.action, GuardedSubject(fact.action);
    Review(fact.threadId, fact.turnId, fact.target, Given(fact.reviewId), subject,
      SubjectName(subject, if action.GuardMcp? then action.tool else ""),
      TriggerFor(action.GuardExecve?, GuardsNetwork(action), GuardsMore(action)),
      fact.startedAtMs, GuardsMore(action), GuardsNetwork(action))
  }

  lemma GuardianDescribesReview(fact: Fact)
    requires fact.GuardianReviewed? && fact.startedAtMs >= 0
    ensures GuardianReviewOf(fact.threadId, fact.turnId, fact.target, fact.reviewId, fact.action, fact.startedAtMs) == GuardedReview(fact)
  {
  }
}
