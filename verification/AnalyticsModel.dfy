/** The facts the analytics reducer takes in, the state it keeps and the events it puts out
    (codex-rs/analytics/src/reducer.rs:146-403, 2112-2345). A `Payload` stands for a record that the reducer
    carries from a fact to an event without looking inside. */
module AnalyticsModel {
  import opened Text
  import opened Protocol
  import AcceptedLines

  type Payload = string

  // ----- state -----

  datatype Connection = Connection(client: Payload, runtime: Payload)

  datatype Mode = New | Resumed | Forked

  datatype Metadata = Metadata(
    sessionId: string,
    threadSource: Option<string>,
    mode: Mode,
    subagentSource: Option<string>,
    parentThreadId: Option<string>)

  datatype Thread = Thread(connectionId: Option<nat>, metadata: Option<Metadata>)

  datatype Request =
    | TurnStart(threadId: string, images: nat)
    | TurnSteer(threadId: string, expectedTurnId: string, images: nat, createdAt: nat)

  datatype TurnConfig = TurnConfig(turnId: string, threadId: string, images: nat, model: string, cwd: string, settings: Payload)

  datatype Completion = Completion(status: Option<TurnStatus>, error: Option<Payload>, completedAt: nat, durationMs: Option<nat>)

  datatype TurnStatus = TurnDone | TurnFailed | TurnInterrupted

  datatype ToolCounts = ToolCounts(
    total: nat,
    shellCommand: nat,
    fileChange: nat,
    mcpToolCall: nat,
    dynamicToolCall: nat,
    subagentToolCall: nat,
    webSearch: nat,
    imageGeneration: nat)

  const NO_TOOLS := ToolCounts(0, 0, 0, 0, 0, 0, 0, 0)

  datatype Turn = Turn(
    connectionId: Option<nat>,
    threadId: Option<string>,
    images: Option<nat>,
    config: Option<TurnConfig>,
    startedAt: Option<nat>,
    tokenUsage: Option<Payload>,
    profile: Option<Payload>,
    completed: Option<Completion>,
    codexError: Option<Payload>,
    latestDiff: Option<string>,
    steerCount: nat,
    toolCounts: ToolCounts)

  const NEW_TURN := Turn(None, None, None, None, None, None, None, None, None, None, 0, NO_TOOLS)

  datatype ItemKey = ItemKey(threadId: string, turnId: string, itemId: string)

  datatype SubjectKind = CommandSubject | FileSubject | McpSubject | PermissionsSubject | NetworkSubject

  datatype Trigger = Initial | SandboxDenial | NetworkPolicyDenial | ExecveIntercept

  /** A user review is named after its request. */
  datatype ReviewId = OfRequest(request: RequestId) | Given(id: string)

  datatype Review = Review(
    threadId: string,
    turnId: string,
    itemId: Option<string>,
    reviewId: ReviewId,
    subject: SubjectKind,
    subjectName: string,
    trigger: Trigger,
    startedAt: nat,
    morePermissions: bool,
    network: bool)

  datatype Reviewer = Guardian | User

  datatype ReviewStatus = Approved | Denied | Aborted | TimedOut

  datatype Resolution = NoResolution | SessionApproval | ExecPolicyAmendment | NetworkPolicyAmendment

  datatype Verdict = Verdict(status: ReviewStatus, resolution: Resolution)

  datatype Approval =
    | UnknownApproval
    | GuardianApproved
    | GuardianDenied
    | GuardianAborted
    | UserApproved
    | UserApprovedForSession
    | UserDenied
    | UserAborted

  datatype ReviewSummary = ReviewSummary(
    reviews: nat,
    guardianReviews: nat,
    userReviews: nat,
    outcome: Option<Approval>,
    morePermissions: bool,
    network: bool)

  const NO_REVIEWS := ReviewSummary(0, 0, 0, None, false, false)

  /** What is known of connections and threads. */
  datatype Directory = Directory(connections: map<nat, Connection>, threads: map<string, Thread>)

  /** Tool items under way and the reviews of tool items. */
  datatype Tools = Tools(
    itemsStarted: map<ItemKey, nat>,
    pendingReviews: map<RequestId, Review>,
    summaries: map<ItemKey, ReviewSummary>)

  /** The seven maps. */
  datatype State = State(
    requests: map<(nat, RequestId), Request>,
    turns: map<string, Turn>,
    directory: Directory,
    tools: Tools)

  const EMPTY := State(map[], map[], Directory(map[], map[]), Tools(map[], map[], map[]))

  // ----- facts -----

  datatype RunStatus = InProgress | Completed | Failed | Declined

  /** A thread item; `UntrackedItem` is any item that is no tool use. */
  datatype Item =
    | CommandExecution(id: string, status: RunStatus, tool: string, durationMs: Option<int>)
    | FileChange(id: string, status: RunStatus)
    | McpToolCall(id: string, status: RunStatus, tool: string, durationMs: Option<int>)
    | DynamicToolCall(id: string, status: RunStatus, tool: string, durationMs: Option<int>)
    | CollabAgentToolCall(id: string, status: RunStatus, tool: string)
    | SubAgentActivity
    | WebSearch(id: string)
    | ImageGeneration(id: string, statusText: string)
    | UntrackedItem

  /** A request for approval. `additional` is `Some(network)` when additional permissions are asked for. */
  datatype Ask =
    | AskCommand(networkContext: bool, networkAmendments: bool, additional: Option<bool>, intercepted: bool)
    | AskFileChange(grantRoot: bool)
    | AskPermissions(network: bool, fileSystem: bool)

  datatype Answer =
    | CommandAccepted
    | CommandAcceptedForSession
    | CommandAcceptedWithPolicy
    | CommandNetworkPolicy(allow: bool)
    | CommandDeclined
    | CommandCancelled
    | FileAccepted
    | FileAcceptedForSession
    | FileDeclined
    | FileCancelled
    | PermissionsEffective(empty: bool, session: bool)
    | RequestAborted

  datatype GuardianStatus = ReviewInProgress | ReviewApproved | ReviewDenied | ReviewTimedOut | ReviewAborted

  datatype GuardianAction =
    | GuardCommand
    | GuardExecve
    | GuardPatch
    | GuardNetwork
    | GuardPermissions(network: bool, fileSystem: bool)
    | GuardMcp(tool: string)

  datatype ThreadKind = CompactionFact | GoalFact | GuardianReviewFact

  datatype ThreadInfo = ThreadInfo(
    id: string,
    sessionId: string,
    threadSource: Option<string>,
    subagentSource: Option<string>,
    parentThreadId: Option<string>,
    createdAt: int,
    details: Payload)

  /** One fact. Times from the protocol are signed. `Untracked` is every fact that touches no state:
      unhandled requests, responses and notifications, and the facts that become events directly. */
  datatype Fact =
    | Initialized(connectionId: nat, connection: Connection)
    | TurnStartRequested(connectionId: nat, requestId: RequestId, threadId: string, images: nat)
    | TurnSteerRequested(connectionId: nat, requestId: RequestId, threadId: string, expectedTurnId: string, images: nat)
    | ThreadOpened(connectionId: nat, thread: ThreadInfo, mode: Mode)
    | TurnStartAnswered(connectionId: nat, requestId: RequestId, turnId: string)
    | TurnSteerAnswered(connectionId: nat, requestId: RequestId, turnId: string)
    | RequestFailed(connectionId: nat, requestId: RequestId, reason: Option<Payload>)
    | SubAgentStarted(threadId: string, sessionId: string, subagentSource: string, parentThreadId: Option<string>, createdAt: nat, details: Payload)
    | ThreadReported(kind: ThreadKind, threadId: string, details: Payload)
    | TurnConfigured(config: TurnConfig)
    | TokensUsed(turnId: string, threadId: string, usage: Payload)
    | TurnProfiled(turnId: string, profile: Payload)
    | TurnErred(turnId: string, threadId: string, error: Payload)
    | TurnStarted(turnId: string, startedAt: Option<int>)
    | DiffUpdated(turnId: string, threadId: string, diff: string)
    | TurnCompleted(turnId: string, status: Option<TurnStatus>, failure: Option<Payload>, completedAt: Option<int>, durationMs: Option<int>)
    | ItemStarted(threadId: string, turnId: string, item: Item, startedAtMs: int)
    | ItemCompleted(threadId: string, turnId: string, item: Item, completedAtMs: int)
    | ReviewAsked(requestId: RequestId, threadId: string, turnId: string, itemId: string, startedAtMs: int, ask: Ask)
    | ReviewAnswered(requestId: RequestId, answer: Answer, answeredAtMs: nat)
    | GuardianReviewed(threadId: string, turnId: string, target: Option<string>, reviewId: string, action: GuardianAction,
        guardianStatus: GuardianStatus, startedAtMs: int, completedAtMs: int)
    | Untracked(payloads: seq<Payload>)

  /** What a step reads from outside: the clock, the repository's hash, and the oracle of the diff
      parser. */
  datatype Env = Env(now: nat, repoHash: Option<string>, oracle: AcceptedLines.Oracle)

  datatype Input = Input(fact: Fact, env: Env)

  // ----- events -----

  datatype TerminalStatus = ItemDone | ItemFailed | ItemRejected

  datatype FailureKind = ToolError | ApprovalDenied

  datatype ToolOutcome = ToolOutcome(status: TerminalStatus, failure: Option<FailureKind>, executionMs: Option<nat>)

  datatype TurnReport = TurnReport(
    turnId: string,
    threadId: string,
    connection: Connection,
    metadata: Metadata,
    config: TurnConfig,
    images: nat,
    profile: Payload,
    completed: Completion,
    startedAt: Option<nat>,
    tokenUsage: Option<Payload>,
    codexError: Option<Payload>,
    steerCount: nat,
    toolCounts: ToolCounts)

  datatype ToolReport = ToolReport(
    key: ItemKey,
    connection: Connection,
    metadata: Metadata,
    toolName: string,
    startedAt: nat,
    completedAt: nat,
    durationMs: Option<nat>,
    outcome: ToolOutcome,
    reviewCount: nat,
    guardianReviewCount: nat,
    userReviewCount: nat,
    finalApproval: Approval,
    morePermissions: bool,
    network: bool)

  datatype Event =
    | ThreadInitialized(threadId: string, metadata: Metadata, origin: Option<Connection>, createdAt: nat, details: Payload)
    | TurnEvent(report: TurnReport)
    | AcceptedLineEvent(turnId: string, threadId: string, model: string, completedAt: nat, repoHash: Option<string>, added: nat, deleted: nat)
    | SteerEvent(request: Request, acceptedTurnId: Option<string>, connection: Connection, metadata: Metadata, reason: Option<Payload>)
    | ReviewEvent(review: Review, connection: Connection, metadata: Metadata, reviewer: Reviewer, verdict: Verdict,
        completedAt: nat, durationMs: Option<nat>)
    | ToolEvent(tool: ToolReport)
    | ThreadEvent(kind: ThreadKind, threadId: string, details: Payload, connection: Connection, metadata: Metadata)
    | PlainEvent(payload: Payload)

  // ----- pure mappers -----

  /** A signed time that must not be negative. */
  function AsUnsigned(x: int): Option<nat> {
    if x < 0 then None else Some(x)
  }

  function AsUnsignedOption(x: Option<int>): Option<nat> {
    if x.Some? then AsUnsigned(x.value) else None
  }

  function Elapsed(startedAt: nat, completedAt: nat): Option<nat> {
    if startedAt <= completedAt then Some(completedAt - startedAt) else None
  }

  /** `tracked_tool_item_id` */
  function TrackedId(item: Item): Option<string> {
    if item.SubAgentActivity? || item.UntrackedItem? then None else Some(item.id)
  }

  function StatusOutcome(status: RunStatus, durationMs: Option<int>): Option<ToolOutcome> {
    var ms := AsUnsignedOption(durationMs);
    match status
    case InProgress => None
    case Completed => Some(ToolOutcome(ItemDone, None, ms))
    case Failed => Some(ToolOutcome(ItemFailed, Some(ToolError), ms))
    case Declined => Some(ToolOutcome(ItemRejected, Some(ApprovalDenied), ms))
  }

  /** How a tool item ended; `None` when it has not, or is no tool item. */
  function OutcomeOf(item: Item): Option<ToolOutcome> {
    match item
    case CommandExecution(_, status, _, ms) => StatusOutcome(status, ms)
    case FileChange(_, status) => StatusOutcome(status, None)
    case McpToolCall(_, status, _, ms) => StatusOutcome(status, ms)
    case DynamicToolCall(_, status, _, ms) => StatusOutcome(status, ms)
    case CollabAgentToolCall(_, status, _) => StatusOutcome(status, None)
    case WebSearch(_) => Some(ToolOutcome(ItemDone, None, None))
    case ImageGeneration(_, text) =>
      if text == "failed" || text == "error" then Some(ToolOutcome(ItemFailed, Some(ToolError), None))
      else Some(ToolOutcome(ItemDone, None, None))
    case SubAgentActivity => None
    case UntrackedItem => None
  }

  function ToolName(item: Item): string {
    match item
    case CommandExecution(_, _, tool, _) => tool
    case FileChange(_, _) => "apply_patch"
    case McpToolCall(_, _, tool, _) => tool
    case DynamicToolCall(_, _, tool, _) => tool
    case CollabAgentToolCall(_, _, tool) => tool
    case WebSearch(_) => "web_search"
    case ImageGeneration(_, _) => "image_generation"
    case SubAgentActivity => ""
    case UntrackedItem => ""
  }

  function Recorded(counts: ToolCounts, item: Item): ToolCounts {
    if item.UntrackedItem? then counts
    else
      var more := counts.(total := counts.total + 1);
      match item
      case CommandExecution(_, _, _, _) => more.(shellCommand := counts.shellCommand + 1)
      case FileChange(_, _) => more.(fileChange := counts.fileChange + 1)
      case McpToolCall(_, _, _, _) => more.(mcpToolCall := counts.mcpToolCall + 1)
      case DynamicToolCall(_, _, _, _) => more.(dynamicToolCall := counts.dynamicToolCall + 1)
      case CollabAgentToolCall(_, _, _) => more.(subagentToolCall := counts.subagentToolCall + 1)
      case SubAgentActivity => more.(subagentToolCall := counts.subagentToolCall + 1)
      case WebSearch(_) => more.(webSearch := counts.webSearch + 1)
      case ImageGeneration(_, _) => more.(imageGeneration := counts.imageGeneration + 1)
  }

  /** The review a request for approval opens; none when its start time is negative. */
  function Opened(requestId: RequestId, threadId: string, turnId: string, itemId: string, startedAtMs: int, ask: Ask): Option<Review> {
    if startedAtMs < 0 then None
    else
      var blank := Review(threadId, turnId, Some(itemId), OfRequest(requestId), CommandSubject, "", Initial, startedAtMs, false, false);
      match ask
      case AskCommand(networkContext, amendments, additional, intercepted) =>
        var network := networkContext || amendments || (additional.Some? && additional.value);
        Some(blank.(
          subject := if networkContext then NetworkSubject else CommandSubject,
          subjectName := if networkContext then "network_access" else "command_execution",
          trigger := if intercepted then ExecveIntercept
                     else if network then NetworkPolicyDenial
                     else if additional.Some? then SandboxDenial else Initial,
          morePermissions := additional.Some?,
          network := network))
      case AskFileChange(grantRoot) =>
        Some(blank.(
          subject := FileSubject,
          subjectName := "apply_patch",
          trigger := if grantRoot then SandboxDenial else Initial,
          morePermissions := grantRoot))
      case AskPermissions(network, fileSystem) =>
        Some(blank.(
          subject := PermissionsSubject,
          subjectName := "permissions",
          trigger := if network then NetworkPolicyDenial else if fileSystem then SandboxDenial else Initial,
          morePermissions := network || fileSystem,
          network := network))
  }

  function VerdictOf(answer: Answer): Verdict {
    match answer
    case CommandAccepted => Verdict(Approved, NoResolution)
    case CommandAcceptedForSession => Verdict(Approved, SessionApproval)
    case CommandAcceptedWithPolicy => Verdict(Approved, ExecPolicyAmendment)
    case CommandNetworkPolicy(allow) => Verdict(if allow then Approved else Denied, NetworkPolicyAmendment)
    case CommandDeclined => Verdict(Denied, NoResolution)
    case CommandCancelled => Verdict(Aborted, NoResolution)
    case FileAccepted => Verdict(Approved, NoResolution)
    case FileAcceptedForSession => Verdict(Approved, SessionApproval)
    case FileDeclined => Verdict(Denied, NoResolution)
    case FileCancelled => Verdict(Aborted, NoResolution)
    case PermissionsEffective(empty, session) =>
      if empty then Verdict(Denied, NoResolution)
      else Verdict(Approved, if session then SessionApproval else NoResolution)
    case RequestAborted => Verdict(Aborted, NoResolution)
  }

  function GuardianVerdict(status: GuardianStatus): Option<Verdict> {
    match status
    case ReviewInProgress => None
    case ReviewApproved => Some(Verdict(Approved, NoResolution))
    case ReviewDenied => Some(Verdict(Denied, NoResolution))
    case ReviewTimedOut => Some(Verdict(TimedOut, NoResolution))
    case ReviewAborted => Some(Verdict(Aborted, NoResolution))
  }

  /** The review a guardian's action describes. */
  function GuardianReviewOf(threadId: string, turnId: string, itemId: Option<string>, reviewId: string, action: GuardianAction, startedAt: nat): Review {
    var blank := Review(threadId, turnId, itemId, Given(reviewId), CommandSubject, "command_execution", Initial, startedAt, false, false);
    match action
    case GuardCommand => blank
    case GuardExecve => blank.(trigger := ExecveIntercept)
    case GuardPatch => blank.(subject := FileSubject, subjectName := "apply_patch", trigger := SandboxDenial, morePermissions := true)
    case GuardNetwork =>
      blank.(subject := NetworkSubject, subjectName := "network_access", trigger := NetworkPolicyDenial, morePermissions := true, network := true)
    case GuardPermissions(network, fileSystem) =>
      blank.(
        subject := PermissionsSubject,
        subjectName := "permissions",
        trigger := if network then NetworkPolicyDenial else if fileSystem then SandboxDenial else Initial,
        morePermissions := network || fileSystem,
        network := network)
    case GuardMcp(tool) => blank.(subject := McpSubject, subjectName := tool)
  }

  /** `item_review_summary_key`: reviews of permissions and network access belong to no item. */
  function SummaryKey(review: Review): Option<ItemKey> {
    if review.subject.PermissionsSubject? || review.subject.NetworkSubject? || review.itemId.None? then None
    else Some(ItemKey(review.threadId, review.turnId, review.itemId.value))
  }

  function FinalApproval(reviewer: Reviewer, verdict: Verdict): Approval {
    match (reviewer, verdict.status)
    case (Guardian, Approved) => GuardianApproved
    case (Guardian, Denied) => GuardianDenied
    case (Guardian, _) => GuardianAborted
    case (User, Approved) => if verdict.resolution.SessionApproval? then UserApprovedForSession else UserApproved
    case (User, Denied) => UserDenied
    case (User, _) => UserAborted
  }
}
