/** The events of a run, read off its facts: which events every fact puts out, and what they say, is settled by
    the facts before it. Nothing here is computed by the steps of the reducer; that the reducer does the same is
    what is shown. */
module EmissionHistory {
  import opened Text
  import opened Protocol
  import opened AnalyticsModel
  import opened FactTables
  import opened Reducer
  import opened TurnRuns
  import opened TurnHistory
  import opened DirectoryHistory
  import opened ReviewHistory
  import AcceptedLines

  // ----- requests and context -----

  /** The request last made under an id of a connection and not answered since. */
  function RequestIn(inputs: seq<Input>, key: (nat, RequestId)): Option<Request> {
    if inputs == [] then None
    else
      var front, last := inputs[..|inputs| - 1], inputs[|inputs| - 1];
      match last.fact
      case TurnStartRequested(c, r, threadId, images) =>
        if (c, r) == key then Some(TurnStart(threadId, images)) else RequestIn(front, key)
      case TurnSteerRequested(c, r, threadId, expected, images) =>
        if (c, r) == key then Some(TurnSteer(threadId, expected, images, last.env.now)) else RequestIn(front, key)
      case TurnStartAnswered(c, r, _) => if (c, r) == key then None else RequestIn(front, key)
      case TurnSteerAnswered(c, r, _) => if (c, r) == key then None else RequestIn(front, key)
      case RequestFailed(c, r, _) => if (c, r) == key then None else RequestIn(front, key)
      case _ => RequestIn(front, key)
  }

  lemma RequestStepRequests(s: State, input: Input, key: (nat, RequestId), out: Out<State>)
    requires out == Step(s, input)
    ensures !IsRequestFact(input.fact) || RequestKey(input.fact) != key ==> Get(out.next.requests, key) == Get(s.requests, key)
    ensures IsRequestFact(input.fact) ==> out.next.requests == NextRequests(s.requests, input.fact, input.env)
  {
  }

  lemma {:induction false} RequestsAreHistory(inputs: seq<Input>, key: (nat, RequestId))
    ensures Get(Run(inputs).next.requests, key) == RequestIn(inputs, key)
  {
    if inputs != [] {
      var front, last := inputs[..|inputs| - 1], inputs[|inputs| - 1];
      RequestsAreHistory(front, key);
      RequestStepRequests(Run(front).next, last, key, Step(Run(front).next, last));
    }
  }

  /** The connection last initialised under the id, with what is known of the thread. */
  function ContextIn(inputs: seq<Input>, connectionId: Option<nat>, threadId: string): Option<Context> {
    if connectionId.None? then None
    else
      match (LastInitialized(inputs, connectionId.value), MetadataOfThread(inputs, threadId))
      case (Some(connection), Some(metadata)) => Some(Context(connection, metadata))
      case _ => None
  }

  function ThreadContextIn(inputs: seq<Input>, threadId: string): Option<Context> {
    ContextIn(inputs, ConnectionOfThread(inputs, threadId), threadId)
  }

  lemma ContextIsHistory(inputs: seq<Input>, connectionId: Option<nat>, threadId: string)
    ensures ContextVia(Run(inputs).next.directory, connectionId, threadId) == ContextIn(inputs, connectionId, threadId)
  {
    ThreadsAreHistory(inputs, threadId);
    if connectionId.Some? {
      ConnectionsAreHistory(inputs, connectionId.value);
    }
  }

  lemma ThreadContextIsHistory(inputs: seq<Input>, threadId: string)
    ensures ThreadContext(Run(inputs).next.directory, threadId) == ThreadContextIn(inputs, threadId)
  {
    ThreadsAreHistory(inputs, threadId);
    ContextIsHistory(inputs, ConnectionOfThread(inputs, threadId), threadId);
  }

  // ----- turns -----

  /** What a fact does to a turn with this log. Steers and tools count only for turns that have one. */
  function TouchIn(inputs: seq<Input>, log: seq<Touch>, fact: Fact, t: string): Option<Touch> {
    match fact
    case TurnConfigured(config) => if config.turnId == t then Some(Filled(fact)) else None
    case TokensUsed(u, _, _) => if u == t then Some(Filled(fact)) else None
    case TurnProfiled(u, _) => if u == t then Some(Filled(fact)) else None
    case TurnErred(u, _, _) => if u == t then Some(Filled(fact)) else None
    case TurnStarted(u, _) => if u == t then Some(Filled(fact)) else None
    case DiffUpdated(u, _, _) => if u == t then Some(Filled(fact)) else None
    case TurnCompleted(u, _, _, _, _) => if u == t then Some(Filled(fact)) else None
    case TurnStartAnswered(c, r, u) =>
      var request := RequestIn(inputs, (c, r));
      if u == t && request.Some? && request.value.TurnStart? then Some(Touch.Claimed(c, request.value.threadId, request.value.images)) else None
    case TurnSteerAnswered(c, r, u) =>
      var request := RequestIn(inputs, (c, r));
      if u == t && log != [] && request.Some? && request.value.TurnSteer? then Some(Touch.Steered) else None
    case ItemCompleted(_, u, item, _) => if u == t && log != [] && !item.UntrackedItem? then Some(UsedTool(item)) else None
    case _ => None
  }

  /** A turn may be reported when it is claimed, configured, completed, or its tokens or profile arrive. */
  predicate MayBeReported(touch: Touch) {
    touch.Claimed? || (touch.Filled? && (touch.fact.TurnConfigured? || touch.fact.TokensUsed? || touch.fact.TurnProfiled? || touch.fact.TurnCompleted?))
  }

  function ThreadOf(log: seq<Touch>): Option<string> {
    Or(Latest(log, ThreadIn), First(log, SuggestedThreadIn))
  }

  function LogContext(inputs: seq<Input>, log: seq<Touch>): Option<Context> {
    if ThreadOf(log).None? then None
    else
      var threadId := ThreadOf(log).value;
      ContextIn(inputs, Or(Latest(log, ConnectionIn), ConnectionOfThread(inputs, threadId)), threadId)
  }

  /** The log has the three parts and the images of a turn, and its context is known. */
  predicate IsComplete(inputs: seq<Input>, log: seq<Touch>) {
    && Latest(log, ConfigIn).Some? && Latest(log, ProfileIn).Some? && Latest(log, CompletionIn).Some? && Latest(log, ImagesIn).Some?
    && LogContext(inputs, log).Some?
  }

  predicate Reports(inputs: seq<Input>, log: seq<Touch>, touch: Option<Touch>) {
    touch.Some? && MayBeReported(touch.value) && IsComplete(inputs, log + [touch.value])
  }

  /** What happened to a turn since it was last reported. */
  function TurnLog(inputs: seq<Input>, t: string): seq<Touch> {
    if inputs == [] then []
    else
      var front, fact := inputs[..|inputs| - 1], inputs[|inputs| - 1].fact;
      var log := TurnLog(front, t);
      var touch := TouchIn(front, log, fact, t);
      if Reports(front, log, touch) then [] else Appended(log, touch)
  }

  function ReportOf(t: string, log: seq<Touch>, context: Context): TurnReport
    requires Latest(log, ConfigIn).Some? && Latest(log, ProfileIn).Some? && Latest(log, CompletionIn).Some?
    requires Latest(log, ImagesIn).Some? && ThreadOf(log).Some?
  {
    TurnReport(t, ThreadOf(log).value, context.connection, context.metadata, Latest(log, ConfigIn).value, Latest(log, ImagesIn).value,
      Latest(log, ProfileIn).value, Latest(log, CompletionIn).value, OrElse(Latest(log, StartIn), None), Latest(log, UsageIn),
      Latest(log, ErrorIn), Count(log, IsSteer), ToolsIn(log))
  }

  /** The lines of the turn's latest diff, when there are any. */
  function LineEvents(t: string, log: seq<Touch>, env: Env): seq<Event>
    requires Latest(log, ConfigIn).Some? && ThreadOf(log).Some?
  {
    if Latest(log, DiffIn).None? then []
    else
      var lines := AcceptedLines.Parse(AcceptedLines.FRESH, Lines(Latest(log, DiffIn).value), env.oracle).summary;
      if lines.added + lines.deleted == 0 then []
      else
        [AcceptedLineEvent(t, ThreadOf(log).value, Latest(log, ConfigIn).value.model, env.now, env.repoHash, lines.added, lines.deleted)]
  }

  function TurnEvents(inputs: seq<Input>, input: Input, t: string): seq<Event> {
    var log := TurnLog(inputs, t);
    var touch := TouchIn(inputs, log, input.fact, t);
    if !Reports(inputs, log, touch) then []
    else
      var whole := log + [touch.value];
      [TurnEvent(ReportOf(t, whole, LogContext(inputs, whole).value))] + LineEvents(t, whole, input.env)
  }

  // ----- items -----

  predicate Begins(fact: Fact, key: ItemKey) {
    && fact.ItemStarted? && HasId(fact.item) && key == ItemKey(fact.threadId, fact.turnId, fact.item.id)
    && fact.startedAtMs >= 0
  }

  predicate Ends(fact: Fact, key: ItemKey) {
    fact.ItemCompleted? && HasId(fact.item) && key == ItemKey(fact.threadId, fact.turnId, fact.item.id)
  }

  /** The last valid start of the item that its end, in a turn known by then, has not yet taken. */
  function StartOf(inputs: seq<Input>, key: ItemKey): Option<nat> {
    if inputs == [] then None
    else
      var front, fact := inputs[..|inputs| - 1], inputs[|inputs| - 1].fact;
      if Begins(fact, key) then Some(fact.startedAtMs)
      else if Ends(fact, key) && TurnLog(front, fact.turnId) != [] then None
      else StartOf(front, key)
  }

  /** The fact ends the item with everything an event needs: a known turn, a start, a valid end and a context. */
  predicate Closes(inputs: seq<Input>, fact: Fact, key: ItemKey) {
    && Ends(fact, key) && TurnLog(inputs, fact.turnId) != [] && StartOf(inputs, key).Some? && fact.completedAtMs >= 0
    && ThreadContextIn(inputs, key.threadId).Some?
  }

  // ----- reviews -----

  /** A review that came to an end: an answer with the request it answers, or a guardian's notification. */
  datatype Ending = ByUser(ask: Fact, reply: Fact) | ByGuardian(fact: Fact)

  ghost predicate Valid(e: Ending) {
    match e
    case ByUser(ask, reply) => ask.ReviewAsked? && ask.startedAtMs >= 0 && reply.ReviewAnswered?
    case ByGuardian(fact) =>
      fact.GuardianReviewed? && !fact.guardianStatus.ReviewInProgress? && fact.startedAtMs >= 0 && fact.completedAtMs >= 0
  }

  /** The approval request last made under an id, with a valid time, and not answered since. */
  function AskIn(inputs: seq<Input>, id: RequestId): (ask: Option<Fact>)
    ensures ask.Some? ==> ask.value.ReviewAsked? && ask.value.startedAtMs >= 0
  {
    if inputs == [] then None
    else
      var front, fact := inputs[..|inputs| - 1], inputs[|inputs| - 1].fact;
      if fact.ReviewAsked? && fact.requestId == id && fact.startedAtMs >= 0 then Some(fact)
      else if fact.ReviewAnswered? && fact.requestId == id then None
      else AskIn(front, id)
  }

  function EndingIn(inputs: seq<Input>, fact: Fact): (e: Option<Ending>)
    ensures e.Some? ==> Valid(e.value)
  {
    if fact.GuardianReviewed? && !fact.guardianStatus.ReviewInProgress? && fact.startedAtMs >= 0 && fact.completedAtMs >= 0
    then Some(ByGuardian(fact))
    else if fact.ReviewAnswered? && AskIn(inputs, fact.requestId).Some? then Some(ByUser(AskIn(inputs, fact.requestId).value, fact))
    else None
  }

  /** The item whose summary counts the review: none for permissions and network access. */
  function ItemOf(e: Ending): Option<ItemKey>
    requires Valid(e)
  {
    match e
    case ByUser(ask, _) =>
      if ask.ask.AskPermissions? || (ask.ask.AskCommand? && ask.ask.networkContext) then None
      else Some(ItemKey(ask.threadId, ask.turnId, ask.itemId))
    case ByGuardian(fact) =>
      if fact.action.GuardPermissions? || fact.action.GuardNetwork? || fact.target.None? then None
      else Some(ItemKey(fact.threadId, fact.turnId, fact.target.value))
  }

  function ReviewBy(e: Ending): Review
    requires Valid(e)
  {
    if e.ByUser? then AskedReview(e.ask) else GuardedReview(e.fact)
  }

  function DecidedBy(e: Ending): Verdict
    requires Valid(e)
  {
    if e.ByUser? then Decision(e.reply.answer) else Verdict(GuardianStatusOf(e.fact.guardianStatus), NoResolution)
  }

  function ApprovalBy(e: Ending): Approval
    requires Valid(e)
  {
    if e.ByUser? then UserApproval(e.reply.answer) else GuardianApprovalOf(e.fact.guardianStatus)
  }

  function EndedAt(e: Ending): nat
    requires Valid(e)
  {
    if e.ByUser? then e.reply.answeredAtMs else e.fact.completedAtMs
  }

  predicate WantedMore(e: Ending)
    requires Valid(e)
  {
    if e.ByUser? then AsksMore(e.ask.ask) else GuardsMore(e.fact.action)
  }

  predicate WantedNetwork(e: Ending)
    requires Valid(e)
  {
    if e.ByUser? then AsksNetwork(e.ask.ask) else GuardsNetwork(e.fact.action)
  }

  /** The reviews of an item since an end of it was last reported, in order. */
  function EndingsOf(inputs: seq<Input>, key: ItemKey): (endings: seq<Ending>)
    ensures forall i :: 0 <= i < |endings| ==> Valid(endings[i])
  {
    if inputs == [] then []
    else
      var front, fact := inputs[..|inputs| - 1], inputs[|inputs| - 1].fact;
      var e := EndingIn(front, fact);
      if Closes(front, fact, key) then []
      else if e.Some? && ItemOf(e.value) == Some(key) then EndingsOf(front, key) + [e.value]
      else EndingsOf(front, key)
  }

  function GuardianCount(endings: seq<Ending>): nat {
    if endings == [] then 0
    else GuardianCount(endings[..|endings| - 1]) + (if endings[|endings| - 1].ByGuardian? then 1 else 0)
  }

  function UserCount(endings: seq<Ending>): nat {
    if endings == [] then 0
    else UserCount(endings[..|endings| - 1]) + (if endings[|endings| - 1].ByUser? then 1 else 0)
  }

  ghost predicate AllValid(endings: seq<Ending>) {
    forall i :: 0 <= i < |endings| ==> Valid(endings[i])
  }

  ghost function SummaryOf(endings: seq<Ending>): ReviewSummary
    requires AllValid(endings)
  {
    ReviewSummary(|endings|, GuardianCount(endings), UserCount(endings),
      if endings == [] then None else Some(ApprovalBy(endings[|endings| - 1])),
      exists i :: 0 <= i < |endings| && WantedMore(endings[i]),
      exists i :: 0 <= i < |endings| && WantedNetwork(endings[i]))
  }

  // ----- the events of a fact -----

  function Between(start: nat, end: nat): Option<nat> {
    if end >= start then Some(end - start) else None
  }

  ghost function ItemEvents(inputs: seq<Input>, fact: Fact): seq<Event>
    requires fact.ItemCompleted?
  {
    if !HasId(fact.item) then []
    else
      var key := ItemKey(fact.threadId, fact.turnId, fact.item.id);
      if !Closes(inputs, fact, key) || Underway(fact.item) then []
      else
        var context, start, reviews := ThreadContextIn(inputs, fact.threadId).value, StartOf(inputs, key).value, SummaryOf(EndingsOf(inputs, key));
        [ToolEvent(ToolReport(key, context.connection, context.metadata, NameOf(fact.item), start, fact.completedAtMs,
          Between(start, fact.completedAtMs), EndOf(fact.item), reviews.reviews, reviews.guardianReviews, reviews.userReviews,
          if reviews.outcome.Some? then reviews.outcome.value else UnknownApproval, reviews.morePermissions, reviews.network))]
  }

  function ReviewEvents(inputs: seq<Input>, fact: Fact): seq<Event> {
    var e := EndingIn(inputs, fact);
    if e.None? then []
    else
      var review := ReviewBy(e.value);
      match ThreadContextIn(inputs, review.threadId)
      case None => []
      case Some(context) =>
        [ReviewEvent(review, context.connection, context.metadata, if e.value.ByUser? then User else Guardian, DecidedBy(e.value),
          EndedAt(e.value), Between(review.startedAt, EndedAt(e.value)))]
  }

  function SteeringEvents(inputs: seq<Input>, key: (nat, RequestId), accepted: Option<string>, reason: Option<Payload>): seq<Event> {
    var request := RequestIn(inputs, key);
    if request.None? || !request.value.TurnSteer? then []
    else
      match ContextIn(inputs, Some(key.0), request.value.threadId)
      case None => []
      case Some(context) => [SteerEvent(request.value, accepted, context.connection, context.metadata, reason)]
  }

  /** Every event a fact puts out after the facts before it. */
  ghost function EventsOf(inputs: seq<Input>, input: Input): seq<Event> {
    match input.fact
    case Initialized(_, _) => []
    case ThreadOpened(c, thread, mode) =>
      if LastInitialized(inputs, c).None? then []
      else
        [ThreadInitialized(thread.id, Metadata(thread.sessionId, thread.threadSource, mode, thread.subagentSource, thread.parentThreadId),
          LastInitialized(inputs, c), if thread.createdAt >= 0 then thread.createdAt else 0, thread.details)]
    case SubAgentStarted(threadId, sessionId, source, parent, createdAt, details) =>
      [ThreadInitialized(threadId, Metadata(sessionId, Some("subagent"), New, Some(source), parent), None, createdAt, details)]
    case ThreadReported(kind, threadId, details) =>
      (match ThreadContextIn(inputs, threadId)
       case None => []
       case Some(context) => [ThreadEvent(kind, threadId, details, context.connection, context.metadata)])
    case TurnStartRequested(_, _, _, _) => []
    case TurnSteerRequested(_, _, _, _, _) => []
    case TurnStartAnswered(_, _, t) => TurnEvents(inputs, input, t)
    case TurnSteerAnswered(c, r, t) => SteeringEvents(inputs, (c, r), Some(t), None)
    case RequestFailed(c, r, reason) => SteeringEvents(inputs, (c, r), None, reason)
    case TurnConfigured(config) => TurnEvents(inputs, input, config.turnId)
    case TokensUsed(t, _, _) => TurnEvents(inputs, input, t)
    case TurnProfiled(t, _) => TurnEvents(inputs, input, t)
    case TurnErred(_, _, _) => []
    case TurnStarted(_, _) => []
    case DiffUpdated(_, _, _) => []
    case TurnCompleted(t, _, _, _, _) => TurnEvents(inputs, input, t)
    case ItemStarted(_, _, _, _) => []
    case ItemCompleted(_, _, _, _) => ItemEvents(inputs, input.fact)
    case ReviewAsked(_, _, _, _, _, _) => []
    case ReviewAnswered(_, _, _) => ReviewEvents(inputs, input.fact)
    case GuardianReviewed(_, _, _, _, _, _, _, _) => ReviewEvents(inputs, input.fact)
    case Untracked(payloads) => seq(|payloads|, i requires 0 <= i < |payloads| => PlainEvent(payloads[i]))
  }

  /** Every event of a run, fact by fact. */
  ghost function AllEvents(inputs: seq<Input>): seq<Event> {
    if inputs == [] then []
    else AllEvents(inputs[..|inputs| - 1]) + EventsOf(inputs[..|inputs| - 1], inputs[|inputs| - 1])
  }

  // ----- turns are as their logs say -----

  lemma TouchIsHistory(inputs: seq<Input>, s: State, fact: Fact, t: string, log: seq<Touch>)
    requires s == Run(inputs).next && (t in s.turns <==> log != [])
    ensures TouchOf(s, fact, t) == TouchIn(inputs, log, fact, t)
  {
    if fact.TurnStartAnswered? || fact.TurnSteerAnswered? {
      RequestsAreHistory(inputs, (fact.connectionId, fact.requestId));
    }
  }

  /** A turn that its log describes is ready and has a context exactly when the log is complete. */
  lemma ReportableExactly(inputs: seq<Input>, d: Directory, turn: Turn, log: seq<Touch>)
    requires d == Run(inputs).next.directory && Describes(turn, log)
    ensures Reportable(d, turn) <==> IsComplete(inputs, log)
    ensures turn.threadId.Some? ==> TurnContext(d, turn) == LogContext(inputs, log)
  {
    assert turn.threadId == ThreadOf(log);
    if turn.threadId.Some? {
      var threadId := turn.threadId.value;
      ThreadsAreHistory(inputs, threadId);
      ContextIsHistory(inputs, Or(turn.connectionId, ConnectionOfThread(inputs, threadId)), threadId);
    }
  }

  /** What a turn that has just been touched puts out. */
  function Given(inputs: seq<Input>, t: string, log: seq<Touch>, env: Env): seq<Event> {
    if IsComplete(inputs, log) then [TurnEvent(ReportOf(t, log, LogContext(inputs, log).value))] + LineEvents(t, log, env) else []
  }

  lemma SettleIsHistory(inputs: seq<Input>, d: Directory, t: string, turn: Turn, env: Env, log: seq<Touch>)
    requires d == Run(inputs).next.directory && Describes(turn, log)
    ensures Settle(d, t, turn, env).events == Given(inputs, t, log, env)
  {
    ReportableExactly(inputs, d, turn, log);
    if Reportable(d, turn) {
      assert Report(t, turn, TurnContext(d, turn).value) == ReportOf(t, log, LogContext(inputs, log).value);
      assert AcceptedLineEvents(t, turn, env) == LineEvents(t, log, env);
    }
  }

  lemma TurnFactGives(inputs: seq<Input>, s: State, input: Input, t: string, log: seq<Touch>, touch: Option<Touch>, out: Out<State>)
    requires s == Run(inputs).next && out == Step(s, input) && Matches(Get(s.turns, t), log)
    requires IsTurnFact(input.fact) && TurnIdOf(input.fact) == t && touch == Some(Filled(input.fact))
    ensures out.events == if Reports(inputs, log, touch) then Given(inputs, t, log + [touch.value], input.env) else []
  {
    var fact, turn := input.fact, OrElse(Get(s.turns, t), NEW_TURN);
    ApplyDescribes(turn, log, touch.value, FilledIn(turn, fact));
    if MayReport(fact) {
      SettleIsHistory(inputs, s.directory, t, FilledIn(turn, fact), input.env, log + [touch.value]);
    }
  }

  lemma StartGives(inputs: seq<Input>, s: State, input: Input, t: string, log: seq<Touch>, touch: Option<Touch>, out: Out<State>)
    requires s == Run(inputs).next && out == Step(s, input) && Matches(Get(s.turns, t), log)
    requires input.fact.TurnStartAnswered? && input.fact.turnId == t && touch == TouchIn(inputs, log, input.fact, t)
    ensures out.events == if Reports(inputs, log, touch) then Given(inputs, t, log + [touch.value], input.env) else []
  {
    var fact, turn := input.fact, Get(s.turns, t);
    RequestsAreHistory(inputs, RequestKey(fact));
    if touch.Some? {
      var claimed := Reducer.Claimed(turn, fact.connectionId, s.requests[RequestKey(fact)]);
      ApplyDescribes(OrElse(turn, NEW_TURN), log, touch.value, claimed);
      SettleIsHistory(inputs, s.directory, t, claimed, input.env, log + [touch.value]);
    }
  }

  lemma GivenReports(inputs: seq<Input>, t: string, log: seq<Touch>, env: Env)
    ensures ReportsTurn(Given(inputs, t, log, env), t) <==> IsComplete(inputs, log)
  {
    if IsComplete(inputs, log) {
      assert Given(inputs, t, log, env)[0].TurnEvent?;
    }
  }

  /** The fact is one after which the turn may be reported. */
  predicate MaySettle(fact: Fact, t: string) {
    (IsTurnFact(fact) && TurnIdOf(fact) == t) || (fact.TurnStartAnswered? && fact.turnId == t)
  }

  lemma OthersReportNothing(inputs: seq<Input>, s: State, input: Input, t: string, log: seq<Touch>, out: Out<State>)
    requires s == Run(inputs).next && out == Step(s, input) && !MaySettle(input.fact, t)
    ensures !ReportsTurn(out.events, t) && !Reports(inputs, log, TouchIn(inputs, log, input.fact, t))
  {
    var fact := input.fact;
    if !Touches(fact, t) {
      OtherFactsLeaveView(s, input, t, out);
    } else if fact.ItemCompleted? {
      ItemStepIsSilent(s, fact, t, out);
    } else if fact.TurnStartAnswered? && AnsweredTurn(s.requests, fact).Some? {
      var u := fact.turnId;
      AnsweredNamesItsTurn(s.directory, s.requests[RequestKey(fact)], Get(s.turns, u), fact, input.env, t,
        AnsweredStep(s.directory, s.requests[RequestKey(fact)], Get(s.turns, u), fact, input.env));
    }
  }

  lemma ReportedExactly(inputs: seq<Input>, s: State, input: Input, t: string, log: seq<Touch>, touch: Option<Touch>, out: Out<State>)
    requires s == Run(inputs).next && out == Step(s, input) && Matches(Get(s.turns, t), log) && touch == TouchIn(inputs, log, input.fact, t)
    ensures ReportsTurn(out.events, t) <==> Reports(inputs, log, touch)
  {
    if !MaySettle(input.fact, t) {
      OthersReportNothing(inputs, s, input, t, log, out);
    } else {
      if IsTurnFact(input.fact) {
        TurnFactGives(inputs, s, input, t, log, touch, out);
      } else {
        StartGives(inputs, s, input, t, log, touch, out);
      }
      if Reports(inputs, log, touch) {
        GivenReports(inputs, t, log + [touch.value], input.env);
      }
    }
  }

  lemma {:induction false} TurnsAreLogs(inputs: seq<Input>, t: string)
    ensures History(inputs, t) == TurnLog(inputs, t)
  {
    if inputs != [] {
      var front, last := inputs[..|inputs| - 1], inputs[|inputs| - 1];
      var before, log := Run(front).next, TurnLog(front, t);
      TurnsAreLogs(front, t);
      TurnsAreHistory(front, t);
      TouchIsHistory(front, before, last.fact, t, log);
      ReportedExactly(front, before, last, t, log, TouchIn(front, log, last.fact, t), Step(before, last));
    }
  }

  lemma KnownTurns(inputs: seq<Input>, t: string)
    ensures t in Run(inputs).next.turns <==> TurnLog(inputs, t) != []
    ensures Matches(Get(Run(inputs).next.turns, t), TurnLog(inputs, t))
  {
    TurnsAreLogs(inputs, t);
    TurnsAreHistory(inputs, t);
  }

  // ----- items and reviews are as their facts say -----

  lemma ToolStepStarts(d: Directory, tools: Tools, fact: Fact, key: ItemKey, out: Out<Tools>)
    requires IsToolFact(fact) && out == ToolStep(d, tools, fact)
    ensures Get(out.next.itemsStarted, key) == if Begins(fact, key) then Some(fact.startedAtMs) else Get(tools.itemsStarted, key)
  {
  }

  lemma ItemStepStarts(s: State, fact: Fact, key: ItemKey, out: Out<State>)
    requires fact.ItemCompleted? && out == ItemStep(s, fact)
    ensures Get(out.next.tools.itemsStarted, key) ==
      if Ends(fact, key) && fact.turnId in s.turns then None else Get(s.tools.itemsStarted, key)
  {
  }

  lemma StepStarts(s: State, input: Input, key: ItemKey, out: Out<State>)
    requires out == Step(s, input)
    ensures Get(out.next.tools.itemsStarted, key) ==
      if Begins(input.fact, key) then Some(input.fact.startedAtMs)
      else if Ends(input.fact, key) && input.fact.turnId in s.turns then None
      else Get(s.tools.itemsStarted, key)
  {
    if IsToolFact(input.fact) {
      ToolStepStarts(s.directory, s.tools, input.fact, key, ToolStep(s.directory, s.tools, input.fact));
    } else if input.fact.ItemCompleted? {
      ItemStepStarts(s, input.fact, key, out);
    }
  }

  lemma {:induction false} StartsAreHistory(inputs: seq<Input>, key: ItemKey)
    ensures Get(Run(inputs).next.tools.itemsStarted, key) == StartOf(inputs, key)
  {
    if inputs != [] {
      var front, last := inputs[..|inputs| - 1], inputs[|inputs| - 1];
      StartsAreHistory(front, key);
      StepStarts(Run(front).next, last, key, Step(Run(front).next, last));
      if last.fact.ItemCompleted? {
        KnownTurns(front, last.fact.turnId);
      }
    }
  }

  lemma ClosesExactly(inputs: seq<Input>, fact: Fact, key: ItemKey)
    ensures UsesUp(Run(inputs).next, fact, key) <==> Closes(inputs, fact, key)
  {
    if Ends(fact, key) {
      KnownTurns(inputs, fact.turnId);
      StartsAreHistory(inputs, key);
      ThreadContextIsHistory(inputs, key.threadId);
    }
  }

  lemma {:induction false} AsksAreHistory(inputs: seq<Input>, id: RequestId)
    ensures PendingIn(inputs, id) == if AskIn(inputs, id).Some? then Some(AskedReview(AskIn(inputs, id).value)) else None
  {
    if inputs != [] {
      AsksAreHistory(inputs[..|inputs| - 1], id);
      var fact := inputs[|inputs| - 1].fact;
      if fact.ReviewAsked? {
        AskOpensReview(fact);
      }
    }
  }

  function TerminalOf(e: Ending): Terminal
    requires Valid(e)
  {
    Terminal(ReviewBy(e), if e.ByUser? then User else Guardian, DecidedBy(e))
  }

  lemma EndingsAreTerminals(inputs: seq<Input>, fact: Fact)
    ensures var e := EndingIn(inputs, fact); EndedIn(inputs, fact) == if e.Some? then Some(TerminalOf(e.value)) else None
  {
    if fact.ReviewAnswered? {
      AsksAreHistory(inputs, fact.requestId);
      AnswersDecide(fact.answer);
    } else if fact.GuardianReviewed? {
      GuardiansDecide(fact.guardianStatus);
      if fact.startedAtMs >= 0 {
        GuardianDescribesReview(fact);
      }
    }
  }

  lemma TerminalReads(e: Ending)
    requires Valid(e)
    ensures SummaryKey(TerminalOf(e).review) == ItemOf(e)
    ensures FinalApproval(TerminalOf(e).reviewer, TerminalOf(e).verdict) == ApprovalBy(e)
    ensures TerminalOf(e).review.morePermissions == WantedMore(e) && TerminalOf(e).review.network == WantedNetwork(e)
  {
    match e
    case ByUser(_, reply) => AnswersDecide(reply.answer);
    case ByGuardian(fact) => GuardiansDecide(fact.guardianStatus);
  }

  lemma SummaryNext(endings: seq<Ending>, e: Ending, longer: seq<Ending>)
    requires AllValid(endings) && Valid(e) && longer == endings + [e]
    ensures AllValid(longer)
    ensures var t := TerminalOf(e); SummaryOf(longer) == Counted(SummaryOf(endings), t.reviewer, t.verdict, t.review)
  {
    TerminalReads(e);
    assert longer[..|endings|] == endings;
    assert forall i :: 0 <= i < |endings| ==> longer[i] == endings[i];
    assert longer[|endings|] == e;
  }

  function TerminalIn(e: Option<Ending>): Option<Terminal>
    requires e.Some? ==> Valid(e.value)
  {
    if e.Some? then Some(TerminalOf(e.value)) else None
  }

  lemma EndedNow(inputs: seq<Input>, tools: Tools, fact: Fact)
    requires tools == Run(inputs).next.tools
    ensures Ended(PendingUnder(tools, fact), fact) == TerminalIn(EndingIn(inputs, fact))
  {
    EndingsAreTerminals(inputs, fact);
    if fact.ReviewAnswered? {
      PendingIsHistory(inputs, fact.requestId);
    }
  }

  ghost function SummaryIn(endings: seq<Ending>): Option<ReviewSummary>
    requires AllValid(endings)
  {
    if endings == [] then None else Some(SummaryOf(endings))
  }

  lemma NothingSummarised()
    ensures SummaryOf([]) == NO_REVIEWS
  {
  }

  lemma SummaryAfter(endings: seq<Ending>, e: Option<Ending>, key: ItemKey, longer: seq<Ending>)
    requires AllValid(endings) && (e.Some? ==> Valid(e.value))
    requires longer == if e.Some? && ItemOf(e.value) == Some(key) then endings + [e.value] else endings
    ensures AllValid(longer) && After(SummaryIn(endings), TerminalIn(e), key) == SummaryIn(longer)
  {
    if e.Some? {
      TerminalReads(e.value);
      NothingSummarised();
      SummaryNext(endings, e.value, endings + [e.value]);
    }
  }

  lemma {:induction false} SummariesAreEndings(inputs: seq<Input>, key: ItemKey)
    ensures Get(Run(inputs).next.tools.summaries, key) == SummaryIn(EndingsOf(inputs, key))
  {
    if inputs != [] {
      var front, last := inputs[..|inputs| - 1], inputs[|inputs| - 1];
      var before := Run(front).next;
      SummariesAreEndings(front, key);
      StepSummaries(before, last, key, Step(before, last));
      EndedNow(front, before.tools, last.fact);
      ClosesExactly(front, last.fact, key);
      if !Closes(front, last.fact, key) {
        SummaryAfter(EndingsOf(front, key), EndingIn(front, last.fact), key, EndingsOf(inputs, key));
      }
    }
  }

  // ----- every event of every run -----

  lemma ItemEventsAreHistory(inputs: seq<Input>, s: State, fact: Fact)
    requires s == Run(inputs).next && fact.ItemCompleted?
    ensures ItemStep(s, fact).events == ItemEvents(inputs, fact)
  {
    if HasId(fact.item) {
      var key := ItemKey(fact.threadId, fact.turnId, fact.item.id);
      ClosesExactly(inputs, fact, key);
      StartsAreHistory(inputs, key);
      SummariesAreEndings(inputs, key);
      ThreadContextIsHistory(inputs, fact.threadId);
      OutcomesAreEnds(fact.item);
    }
  }

  lemma ReviewEventsAreHistory(inputs: seq<Input>, s: State, fact: Fact)
    requires s == Run(inputs).next && (fact.ReviewAnswered? || fact.GuardianReviewed?)
    ensures ToolStep(s.directory, s.tools, fact).events == ReviewEvents(inputs, fact)
  {
    EndingsAreTerminals(inputs, fact);
    if fact.ReviewAnswered? {
      PendingIsHistory(inputs, fact.requestId);
    }
    var e := EndingIn(inputs, fact);
    if e.Some? {
      ThreadContextIsHistory(inputs, ReviewBy(e.value).threadId);
    }
  }

  lemma SteerEventsAreHistory(inputs: seq<Input>, s: State, input: Input)
    requires s == Run(inputs).next && (input.fact.TurnSteerAnswered? || input.fact.RequestFailed?)
    ensures RequestStep(s, input.fact, input.env).events == EventsOf(inputs, input)
  {
    var fact := input.fact;
    RequestsAreHistory(inputs, RequestKey(fact));
    var request := RequestIn(inputs, RequestKey(fact));
    if request.Some? {
      ContextIsHistory(inputs, Some(fact.connectionId), request.value.threadId);
    }
  }

  lemma SetupEventsAreHistory(inputs: seq<Input>, s: State, input: Input)
    requires s == Run(inputs).next && IsSetup(input.fact)
    ensures SetupStep(s.directory, input.fact).events == EventsOf(inputs, input)
  {
    if input.fact.ThreadOpened? {
      ConnectionsAreHistory(inputs, input.fact.connectionId);
    }
  }

  lemma TurnEventsAreHistory(inputs: seq<Input>, s: State, input: Input, t: string, out: Out<State>)
    requires s == Run(inputs).next && MaySettle(input.fact, t) && out == Step(s, input)
    ensures out.events == TurnEvents(inputs, input, t)
  {
    var log := TurnLog(inputs, t);
    KnownTurns(inputs, t);
    var touch := TouchIn(inputs, log, input.fact, t);
    if IsTurnFact(input.fact) {
      TurnFactGives(inputs, s, input, t, log, touch, out);
    } else {
      StartGives(inputs, s, input, t, log, touch, out);
    }
  }

  /** What a fact puts out after a run is what its history says, every event in full. */
  lemma StepEventsAreHistory(inputs: seq<Input>, input: Input)
    ensures Step(Run(inputs).next, input).events == EventsOf(inputs, input)
  {
    var s, fact := Run(inputs).next, input.fact;
    if IsSetup(fact) {
      SetupEventsAreHistory(inputs, s, input);
    } else if IsTurnFact(fact) {
      TurnEventsAreHistory(inputs, s, input, TurnIdOf(fact), Step(s, input));
    } else if fact.TurnStartAnswered? {
      TurnEventsAreHistory(inputs, s, input, fact.turnId, Step(s, input));
    } else if fact.TurnSteerAnswered? || fact.RequestFailed? {
      SteerEventsAreHistory(inputs, s, input);
    } else if fact.ReviewAnswered? || fact.GuardianReviewed? {
      ReviewEventsAreHistory(inputs, s, fact);
    } else if fact.ItemCompleted? {
      ItemEventsAreHistory(inputs, s, fact);
    } else if fact.ThreadReported? {
      ThreadContextIsHistory(inputs, fact.threadId);
    }
  }

  /** The events of every run, in order, are those its facts settle. */
  lemma {:induction false} EventsAreHistory(inputs: seq<Input>)
    ensures Run(inputs).events == AllEvents(inputs)
  {
    if inputs != [] {
      EventsAreHistory(inputs[..|inputs| - 1]);
      StepEventsAreHistory(inputs[..|inputs| - 1], inputs[|inputs| - 1]);
    }
  }

  /** A tool event says the user denied the tool exactly when the last review of its item was an answer that
      declines. */
  lemma DeniedExactly(inputs: seq<Input>, fact: Fact, i: nat)
    requires fact.ItemCompleted? && i < |ItemEvents(inputs, fact)|
    ensures ItemEvents(inputs, fact)[i].ToolEvent?
    ensures var tool := ItemEvents(inputs, fact)[i].tool;
      var endings := EndingsOf(inputs, tool.key);
      tool.finalApproval == UserDenied <==>
        endings != [] && endings[|endings| - 1].ByUser? && Declines(endings[|endings| - 1].reply.answer)
  {
    var endings := EndingsOf(inputs, ItemEvents(inputs, fact)[i].tool.key);
    if endings != [] && endings[|endings| - 1].ByUser? {
      AnswersDecide(endings[|endings| - 1].reply.answer);
    }
  }
}
