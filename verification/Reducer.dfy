/** The analytics reducer: what each fact does to the seven maps and which events it puts out
    (codex-rs/analytics/src/reducer.rs:405-1657). */
module Reducer {
  import opened Text
  import opened Protocol
  import opened AnalyticsModel
  import AcceptedLines

  /** What follows a fact, and the events it puts out. */
  datatype Out<T> = Out(next: T, events: seq<Event>)

  function Get<K, V>(m: map<K, V>, k: K): Option<V> {
    if k in m then Some(m[k]) else None
  }

  function Put<K, V>(m: map<K, V>, k: K, v: Option<V>): map<K, V> {
    if v.Some? then m[k := v.value] else m - {k}
  }

  function OrElse<T>(o: Option<T>, otherwise: T): T {
    if o.Some? then o.value else otherwise
  }

  function Or<T>(o: Option<T>, otherwise: Option<T>): Option<T> {
    if o.Some? then o else otherwise
  }

  // ----- context -----

  datatype Context = Context(connection: Connection, metadata: Metadata)

  function ThreadConnectionId(d: Directory, threadId: string): Option<nat> {
    if threadId in d.threads then d.threads[threadId].connectionId else None
  }

  function ThreadMetadata(d: Directory, threadId: string): Option<Metadata> {
    if threadId in d.threads then d.threads[threadId].metadata else None
  }

  function ContextVia(d: Directory, connectionId: Option<nat>, threadId: string): Option<Context> {
    match (connectionId, ThreadMetadata(d, threadId))
    case (Some(c), Some(metadata)) => if c in d.connections then Some(Context(d.connections[c], metadata)) else None
    case _ => None
  }

  /** `thread_context_or_warn` */
  function ThreadContext(d: Directory, threadId: string): Option<Context> {
    ContextVia(d, ThreadConnectionId(d, threadId), threadId)
  }

  // ----- connections and threads -----

  predicate IsSetup(fact: Fact) {
    fact.Initialized? || fact.ThreadOpened? || fact.SubAgentStarted?
  }

  /** The response is dropped on an unknown connection. */
  function OpenThread(d: Directory, connectionId: nat, thread: ThreadInfo, mode: Mode): Out<Directory> {
    if connectionId !in d.connections then Out(d, [])
    else
      var metadata := Metadata(thread.sessionId, thread.threadSource, mode, thread.subagentSource, thread.parentThreadId);
      Out(d.(threads := d.threads[thread.id := Thread(Some(connectionId), Some(metadata))]),
        [ThreadInitialized(thread.id, metadata, Some(d.connections[connectionId]),
          OrElse(AsUnsigned(thread.createdAt), 0), thread.details)])
  }

  /** A sub-agent's thread keeps what is known of it and otherwise takes its parent's connection. */
  function StartSubAgent(d: Directory, fact: Fact): Out<Directory>
    requires fact.SubAgentStarted?
  {
    var parent := if fact.parentThreadId.Some? then ThreadConnectionId(d, fact.parentThreadId.value) else None;
    var given := Metadata(fact.sessionId, Some("subagent"), New, Some(fact.subagentSource), fact.parentThreadId);
    var known := OrElse(Get(d.threads, fact.threadId), Thread(None, None));
    Out(d.(threads := d.threads[fact.threadId := Thread(Or(known.connectionId, parent), Or(known.metadata, Some(given)))]),
      [ThreadInitialized(fact.threadId, given, None, fact.createdAt, fact.details)])
  }

  function SetupStep(d: Directory, fact: Fact): Out<Directory>
    requires IsSetup(fact)
  {
    match fact
    case Initialized(connectionId, connection) => Out(d.(connections := d.connections[connectionId := connection]), [])
    case ThreadOpened(connectionId, thread, mode) => OpenThread(d, connectionId, thread, mode)
    case SubAgentStarted(_, _, _, _, _, _) => StartSubAgent(d, fact)
  }

  // ----- turns -----

  predicate Ready(turn: Turn) {
    turn.threadId.Some? && turn.images.Some? && turn.config.Some? && turn.profile.Some? && turn.completed.Some?
  }

  /** A turn's own connection goes before its thread's. */
  function TurnContext(d: Directory, turn: Turn): Option<Context>
    requires turn.threadId.Some?
  {
    var threadId := turn.threadId.value;
    ContextVia(d, Or(turn.connectionId, ThreadConnectionId(d, threadId)), threadId)
  }

  predicate Reportable(d: Directory, turn: Turn) {
    Ready(turn) && TurnContext(d, turn).Some?
  }

  function Report(turnId: string, turn: Turn, context: Context): TurnReport
    requires Ready(turn)
  {
    TurnReport(turnId, turn.threadId.value, context.connection, context.metadata, turn.config.value, turn.images.value,
      turn.profile.value, turn.completed.value, turn.startedAt, turn.tokenUsage, turn.codexError, turn.steerCount, turn.toolCounts)
  }

  /** The accepted-line event of a turn whose last diff changes any line. */
  function AcceptedLineEvents(turnId: string, turn: Turn, env: Env): seq<Event>
    requires Ready(turn)
  {
    if turn.latestDiff.None? then []
    else
      var summary := AcceptedLines.Parse(AcceptedLines.FRESH, Lines(turn.latestDiff.value), env.oracle).summary;
      if summary.added == 0 && summary.deleted == 0 then []
      else [AcceptedLineEvent(turnId, turn.threadId.value, turn.config.value.model, env.now, env.repoHash, summary.added, summary.deleted)]
  }

  /** `maybe_emit_turn_event`: a turn with all its parts and a known context is reported and forgotten. */
  function Settle(d: Directory, turnId: string, turn: Turn, env: Env): Out<Option<Turn>> {
    if Reportable(d, turn)
    then Out(None, [TurnEvent(Report(turnId, turn, TurnContext(d, turn).value))] + AcceptedLineEvents(turnId, turn, env))
    else Out(Some(turn), [])
  }

  /** Facts that fill in one turn. */
  predicate IsTurnFact(fact: Fact) {
    || fact.TurnConfigured? || fact.TokensUsed? || fact.TurnProfiled? || fact.TurnErred?
    || fact.TurnStarted? || fact.DiffUpdated? || fact.TurnCompleted?
  }

  function TurnIdOf(fact: Fact): string
    requires IsTurnFact(fact)
  {
    if fact.TurnConfigured? then fact.config.turnId else fact.turnId
  }

  function FilledIn(turn: Turn, fact: Fact): Turn
    requires IsTurnFact(fact)
  {
    match fact
    case TurnConfigured(config) => turn.(threadId := Some(config.threadId), images := Some(config.images), config := Some(config))
    case TokensUsed(_, threadId, usage) => turn.(threadId := Some(threadId), tokenUsage := Some(usage))
    case TurnProfiled(_, profile) => turn.(profile := Some(profile))
    case TurnErred(_, threadId, error) => turn.(threadId := Or(turn.threadId, Some(threadId)), codexError := Some(error))
    case TurnStarted(_, startedAt) => turn.(startedAt := AsUnsignedOption(startedAt))
    case DiffUpdated(_, threadId, diff) => turn.(threadId := Some(threadId), latestDiff := Some(diff))
    case TurnCompleted(_, status, failure, completedAt, durationMs) =>
      turn.(completed := Some(Completion(status, failure, OrElse(AsUnsignedOption(completedAt), 0), AsUnsignedOption(durationMs))))
  }

  /** The facts after which the turn may be reported. */
  predicate MayReport(fact: Fact) {
    fact.TurnConfigured? || fact.TokensUsed? || fact.TurnProfiled? || fact.TurnCompleted?
  }

  function TurnStep(d: Directory, turn: Option<Turn>, fact: Fact, env: Env): Out<Option<Turn>>
    requires IsTurnFact(fact)
  {
    var filled := FilledIn(OrElse(turn, NEW_TURN), fact);
    if MayReport(fact) then Settle(d, TurnIdOf(fact), filled, env) else Out(Some(filled), [])
  }

  // ----- requests -----

  predicate IsRequestFact(fact: Fact) {
    fact.TurnStartRequested? || fact.TurnSteerRequested? || fact.TurnStartAnswered? || fact.TurnSteerAnswered? || fact.RequestFailed?
  }

  /** A started turn takes its connection, thread and images from the request. */
  function Claimed(turn: Option<Turn>, connectionId: nat, request: Request): Turn {
    OrElse(turn, NEW_TURN).(connectionId := Some(connectionId), threadId := Some(request.threadId), images := Some(request.images))
  }

  function Steered(turn: Option<Turn>): Option<Turn> {
    if turn.Some? then Some(turn.value.(steerCount := turn.value.steerCount + 1)) else None
  }

  function SteerEvents(d: Directory, connectionId: nat, request: Request, accepted: Option<string>, reason: Option<Payload>): seq<Event> {
    match ContextVia(d, Some(connectionId), request.threadId)
    case None => []
    case Some(context) => [SteerEvent(request, accepted, context.connection, context.metadata, reason)]
  }

  function RequestKey(fact: Fact): (nat, RequestId)
    requires IsRequestFact(fact)
  {
    (fact.connectionId, fact.requestId)
  }

  /** A response takes the request off the map whatever its kind. */
  function NextRequests(requests: map<(nat, RequestId), Request>, fact: Fact, env: Env): map<(nat, RequestId), Request>
    requires IsRequestFact(fact)
  {
    match fact
    case TurnStartRequested(_, _, threadId, images) => requests[RequestKey(fact) := TurnStart(threadId, images)]
    case TurnSteerRequested(_, _, threadId, expected, images) =>
      requests[RequestKey(fact) := TurnSteer(threadId, expected, images, env.now)]
    case _ => requests - {RequestKey(fact)}
  }

  /** The turn a response concerns, when it answers a request of its kind. */
  function AnsweredTurn(requests: map<(nat, RequestId), Request>, fact: Fact): Option<string>
    requires IsRequestFact(fact)
  {
    if RequestKey(fact) !in requests then None
    else
      var request := requests[RequestKey(fact)];
      if (fact.TurnStartAnswered? && request.TurnStart?) || (fact.TurnSteerAnswered? && request.TurnSteer?) then Some(fact.turnId)
      else None
  }

  function AnsweredStep(d: Directory, request: Request, turn: Option<Turn>, fact: Fact, env: Env): Out<Option<Turn>>
    requires fact.TurnStartAnswered? || fact.TurnSteerAnswered?
  {
    if fact.TurnStartAnswered? then Settle(d, fact.turnId, Claimed(turn, fact.connectionId, request), env)
    else Out(Steered(turn), SteerEvents(d, fact.connectionId, request, Some(fact.turnId), None))
  }

  function RequestStep(s: State, fact: Fact, env: Env): Out<State>
    requires IsRequestFact(fact)
  {
    var s1 := s.(requests := NextRequests(s.requests, fact, env));
    var request := Get(s.requests, RequestKey(fact));
    var answered := AnsweredTurn(s.requests, fact);
    if answered.Some? then
      var out := AnsweredStep(s.directory, request.value, Get(s.turns, answered.value), fact, env);
      Out(s1.(turns := Put(s.turns, answered.value, out.next)), out.events)
    else if fact.RequestFailed? && request.Some? && request.value.TurnSteer? then
      Out(s1, SteerEvents(s.directory, fact.connectionId, request.value, None, fact.reason))
    else Out(s1, [])
  }

  // ----- reviews -----

  function Counted(summary: ReviewSummary, reviewer: Reviewer, verdict: Verdict, review: Review): ReviewSummary {
    ReviewSummary(
      summary.reviews + 1,
      summary.guardianReviews + (if reviewer.Guardian? then 1 else 0),
      summary.userReviews + (if reviewer.User? then 1 else 0),
      Some(FinalApproval(reviewer, verdict)),
      summary.morePermissions || review.morePermissions,
      summary.network || review.network)
  }

  function WithReview(summaries: map<ItemKey, ReviewSummary>, reviewer: Reviewer, verdict: Verdict, review: Review): map<ItemKey, ReviewSummary> {
    match SummaryKey(review)
    case None => summaries
    case Some(key) => summaries[key := Counted(OrElse(Get(summaries, key), NO_REVIEWS), reviewer, verdict, review)]
  }

  /** The review is counted for its item even when its own event is dropped. */
  function EmitReview(d: Directory, tools: Tools, review: Review, reviewer: Reviewer, verdict: Verdict, completedAt: nat): Out<Tools> {
    Out(tools.(summaries := WithReview(tools.summaries, reviewer, verdict, review)),
      match ThreadContext(d, review.threadId)
      case None => []
      case Some(context) =>
        [ReviewEvent(review, context.connection, context.metadata, reviewer, verdict, completedAt, Elapsed(review.startedAt, completedAt))])
  }

  function AskReview(tools: Tools, requestId: RequestId, review: Option<Review>): Tools {
    if review.Some? then tools.(pendingReviews := tools.pendingReviews[requestId := review.value]) else tools
  }

  function AnswerReview(d: Directory, tools: Tools, requestId: RequestId, answer: Answer, completedAt: nat): Out<Tools> {
    if requestId !in tools.pendingReviews then Out(tools, [])
    else
      EmitReview(d, tools.(pendingReviews := tools.pendingReviews - {requestId}), tools.pendingReviews[requestId], User,
        VerdictOf(answer), completedAt)
  }

  datatype Terminal = Terminal(review: Review, reviewer: Reviewer, verdict: Verdict)

  /** The review a guardian's notification completes; none while in progress or with a negative time. */
  function GuardianTerminal(fact: Fact): Option<Terminal>
    requires fact.GuardianReviewed?
  {
    match GuardianVerdict(fact.guardianStatus)
    case None => None
    case Some(verdict) =>
      if fact.startedAtMs < 0 || fact.completedAtMs < 0 then None
      else
        Some(Terminal(GuardianReviewOf(fact.threadId, fact.turnId, fact.target, fact.reviewId, fact.action, fact.startedAtMs),
          Guardian, verdict))
  }

  function StartItem(tools: Tools, threadId: string, turnId: string, item: Item, startedAtMs: int): Tools {
    match TrackedId(item)
    case None => tools
    case Some(id) =>
      if startedAtMs < 0 then tools
      else tools.(itemsStarted := tools.itemsStarted[ItemKey(threadId, turnId, id) := startedAtMs])
  }

  predicate IsToolFact(fact: Fact) {
    fact.ItemStarted? || fact.ReviewAsked? || fact.ReviewAnswered? || fact.GuardianReviewed?
  }

  function ToolStep(d: Directory, tools: Tools, fact: Fact): Out<Tools>
    requires IsToolFact(fact)
  {
    match fact
    case ItemStarted(threadId, turnId, item, startedAtMs) => Out(StartItem(tools, threadId, turnId, item, startedAtMs), [])
    case ReviewAsked(requestId, threadId, turnId, itemId, startedAtMs, ask) =>
      Out(AskReview(tools, requestId, Opened(requestId, threadId, turnId, itemId, startedAtMs, ask)), [])
    case ReviewAnswered(requestId, answer, answeredAtMs) => AnswerReview(d, tools, requestId, answer, answeredAtMs)
    case GuardianReviewed(_, _, _, _, _, _, _, completedAtMs) =>
      match GuardianTerminal(fact)
      case None => Out(tools, [])
      case Some(t) => EmitReview(d, tools, t.review, t.reviewer, t.verdict, completedAtMs)
  }

  // ----- completed items -----

  function Reported(context: Context, key: ItemKey, item: Item, startedAt: nat, completedAt: nat, outcome: ToolOutcome,
    summary: ReviewSummary): Event
  {
    ToolEvent(ToolReport(key, context.connection, context.metadata, ToolName(item), startedAt, completedAt,
      Elapsed(startedAt, completedAt), outcome, summary.reviews, summary.guardianReviews, summary.userReviews,
      OrElse(summary.outcome, UnknownApproval), summary.morePermissions, summary.network))
  }

  /** The event of a finished tool item, with the summary of its reviews. */
  function ToolEvents(context: Context, key: ItemKey, item: Item, startedAt: nat, completedAt: nat, summary: Option<ReviewSummary>): seq<Event> {
    match OutcomeOf(item)
    case None => []
    case Some(outcome) => [Reported(context, key, item, startedAt, completedAt, outcome, OrElse(summary, NO_REVIEWS))]
  }

  function CountedTool(turn: Option<Turn>, item: Item): Option<Turn> {
    if turn.Some? then Some(turn.value.(toolCounts := Recorded(turn.value.toolCounts, item))) else None
  }

  /** An event needs the item's start, a valid end and a context. Only then is the summary used up. */
  function FinishItem(d: Directory, tools: Tools, key: ItemKey, item: Item, completedAtMs: int): Out<Tools> {
    if key !in tools.itemsStarted then Out(tools, [])
    else
      var startedAt := tools.itemsStarted[key];
      var taken := tools.(itemsStarted := tools.itemsStarted - {key});
      if completedAtMs < 0 then Out(taken, [])
      else
        match ThreadContext(d, key.threadId)
        case None => Out(taken, [])
        case Some(context) =>
          Out(taken.(summaries := tools.summaries - {key}),
            ToolEvents(context, key, item, startedAt, completedAtMs, Get(tools.summaries, key)))
  }

  /** The tool is counted whenever the turn is known; nothing else happens when it is not. */
  function ItemStep(s: State, fact: Fact): Out<State>
    requires fact.ItemCompleted?
  {
    if fact.turnId !in s.turns || fact.item.UntrackedItem? then Out(s, [])
    else
      var s1 := s.(turns := Put(s.turns, fact.turnId, CountedTool(Get(s.turns, fact.turnId), fact.item)));
      if fact.item.SubAgentActivity? then Out(s1, [])
      else
        var out := FinishItem(s.directory, s.tools, ItemKey(fact.threadId, fact.turnId, fact.item.id), fact.item, fact.completedAtMs);
        Out(s1.(tools := out.next), out.events)
  }

  // ----- runs -----

  function ThreadEvents(d: Directory, kind: ThreadKind, threadId: string, details: Payload): seq<Event> {
    match ThreadContext(d, threadId)
    case None => []
    case Some(context) => [ThreadEvent(kind, threadId, details, context.connection, context.metadata)]
  }

  /** `ingest` */
  function Step(s: State, input: Input): Out<State> {
    var fact := input.fact;
    if IsSetup(fact) then
      var out := SetupStep(s.directory, fact);
      Out(s.(directory := out.next), out.events)
    else if IsTurnFact(fact) then
      var out := TurnStep(s.directory, Get(s.turns, TurnIdOf(fact)), fact, input.env);
      Out(s.(turns := Put(s.turns, TurnIdOf(fact), out.next)), out.events)
    else if IsRequestFact(fact) then RequestStep(s, fact, input.env)
    else if IsToolFact(fact) then
      var out := ToolStep(s.directory, s.tools, fact);
      Out(s.(tools := out.next), out.events)
    else if fact.ItemCompleted? then ItemStep(s, fact)
    else if fact.ThreadReported? then Out(s, ThreadEvents(s.directory, fact.kind, fact.threadId, fact.details))
    else Out(s, seq(|fact.payloads|, i requires 0 <= i < |fact.payloads| => PlainEvent(fact.payloads[i])))
  }

  /** A run from a given state. */
  function RunFrom(s: State, inputs: seq<Input>): Out<State> {
    if inputs == [] then Out(s, [])
    else
      var before := RunFrom(s, inputs[..|inputs| - 1]);
      var last := Step(before.next, inputs[|inputs| - 1]);
      Out(last.next, before.events + last.events)
  }

  function Run(inputs: seq<Input>): Out<State> {
    RunFrom(EMPTY, inputs)
  }
}
