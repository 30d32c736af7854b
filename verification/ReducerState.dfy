/** The reducer as an object: seven maps updated in place, one method per handler, each proved against the
    specification of its fact (codex-rs/analytics/src/reducer.rs:146-155, 405-1657). */
module ReducerState {
  import opened Text
  import opened Protocol
  import opened AnalyticsModel
  import opened Reducer
  import opened DirectoryHistory
  import opened TurnHistory
  import EmissionHistory
  import AcceptedLines

  lemma PutTwice<K, V>(m: map<K, V>, k: K, v: V, last: Option<V>)
    ensures Put(m[k := v], k, last) == Put(m, k, last)
  {
  }

  lemma RunOneMore(inputs: seq<Input>, input: Input)
    ensures var before := Run(inputs);
      var last := Step(before.next, input);
      Run(inputs + [input]) == Out(last.next, before.events + last.events)
  {
    assert (inputs + [input])[..|inputs|] == inputs;
  }

  /** `inputs` and `emitted` are what has gone in and come out so far. */
  class AnalyticsReducer {
    ghost var inputs: seq<Input>
    ghost var emitted: seq<Event>
    var requests: map<(nat, RequestId), Request>
    var turns: map<string, Turn>
    var connections: map<nat, Connection>
    var threads: map<string, Thread>
    var toolItemsStartedAtMs: map<ItemKey, nat>
    var pendingReviews: map<RequestId, Review>
    var itemReviewSummaries: map<ItemKey, ReviewSummary>

    function Known(): Directory
      reads this`connections, this`threads
    {
      Directory(connections, threads)
    }

    function ToolState(): Tools
      reads this`toolItemsStartedAtMs, this`pendingReviews, this`itemReviewSummaries
    {
      Tools(toolItemsStartedAtMs, pendingReviews, itemReviewSummaries)
    }

    function Snapshot(): State
      reads this
    {
      State(requests, turns, Known(), ToolState())
    }

    /** The maps are those of the run so far. */
    ghost predicate Valid()
      reads this
    {
      Out(Snapshot(), emitted) == Run(inputs)
    }

    constructor ()
      ensures Valid() && inputs == [] && Snapshot() == EMPTY
    {
      inputs, emitted := [], [];
      requests, turns, connections, threads := map[], map[], map[], map[];
      toolItemsStartedAtMs, pendingReviews, itemReviewSummaries := map[], map[], map[];
    }

    // ----- connections and threads -----

    method IngestInitialize(connectionId: nat, connection: Connection)
      modifies this`connections
      ensures Known() == SetupStep(old(Known()), Initialized(connectionId, connection)).next
    {
      connections := connections[connectionId := connection];
    }

    method EmitThreadInitialized(connectionId: nat, thread: ThreadInfo, mode: Mode) returns (events: seq<Event>)
      modifies this`threads
      ensures Out(Known(), events) == OpenThread(old(Known()), connectionId, thread, mode)
    {
      events := [];
      if connectionId !in connections {
        return;
      }
      var metadata := Metadata(thread.sessionId, thread.threadSource, mode, thread.subagentSource, thread.parentThreadId);
      threads := threads[thread.id := Thread(Some(connectionId), Some(metadata))];
      var createdAt := if thread.createdAt < 0 then 0 else thread.createdAt;
      events := [ThreadInitialized(thread.id, metadata, Some(connections[connectionId]), createdAt, thread.details)];
    }

    method IngestSubagentThreadStarted(fact: Fact) returns (events: seq<Event>)
      requires fact.SubAgentStarted?
      modifies this`threads
      ensures Out(Known(), events) == StartSubAgent(old(Known()), fact)
    {
      var parentConnectionId: Option<nat> := None;
      if fact.parentThreadId.Some? && fact.parentThreadId.value in threads {
        parentConnectionId := threads[fact.parentThreadId.value].connectionId;
      }
      var thread := Thread(None, None);
      if fact.threadId in threads {
        thread := threads[fact.threadId];
      }
      var metadata := Metadata(fact.sessionId, Some("subagent"), New, Some(fact.subagentSource), fact.parentThreadId);
      if thread.metadata.None? {
        thread := thread.(metadata := Some(metadata));
      }
      if thread.connectionId.None? {
        thread := thread.(connectionId := parentConnectionId);
      }
      threads := threads[fact.threadId := thread];
      events := [ThreadInitialized(fact.threadId, metadata, None, fact.createdAt, fact.details)];
    }

    // ----- turns -----

    /** Removes the turn when it reports it. */
    method MaybeEmitTurnEvent(turnId: string, env: Env) returns (events: seq<Event>)
      modifies this`turns
      ensures turnId in old(turns) ==>
        var out := Settle(Known(), turnId, old(turns)[turnId], env);
        turns == Put(old(turns), turnId, out.next) && events == out.events
      ensures turnId !in old(turns) ==> turns == old(turns) && events == []
    {
      events := [];
      if turnId !in turns {
        return;
      }
      var turn := turns[turnId];
      if turn.threadId.None? || turn.images.None? || turn.config.None? || turn.profile.None? || turn.completed.None? {
        return;
      }
      var threadId := turn.threadId.value;
      var connectionId := turn.connectionId;
      if connectionId.None? && threadId in threads {
        connectionId := threads[threadId].connectionId;
      }
      if connectionId.None? || connectionId.value !in connections {
        return;
      }
      if threadId !in threads || threads[threadId].metadata.None? {
        return;
      }
      var context := Context(connections[connectionId.value], threads[threadId].metadata.value);
      events := [TurnEvent(Report(turnId, turn, context))];
      var lines := AcceptedLinesOf(turnId, turn, env);
      events := events + lines;
      turns := turns - {turnId};
    }

    method AcceptedLinesOf(turnId: string, turn: Turn, env: Env) returns (events: seq<Event>)
      requires Ready(turn)
      ensures events == AcceptedLineEvents(turnId, turn, env)
    {
      events := [];
      if turn.latestDiff.Some? {
        var summary := AcceptedLines.AcceptedLineFingerprints(turn.latestDiff.value, env.oracle);
        if summary.added != 0 || summary.deleted != 0 {
          events := [AcceptedLineEvent(turnId, turn.threadId.value, turn.config.value.model, env.now, env.repoHash,
                       summary.added, summary.deleted)];
        }
      }
    }

    /** The entry of a turn, made when it is missing. */
    method TurnEntry(turnId: string) returns (turn: Turn)
      ensures turn == OrElse(Get(turns, turnId), NEW_TURN)
    {
      turn := if turnId in turns then turns[turnId] else NEW_TURN;
    }

    method IngestTurnFact(fact: Fact, env: Env) returns (events: seq<Event>)
      requires IsTurnFact(fact)
      modifies this`turns
      ensures var out := TurnStep(Known(), Get(old(turns), TurnIdOf(fact)), fact, env);
        turns == Put(old(turns), TurnIdOf(fact), out.next) && events == out.events
    {
      var turnId := TurnIdOf(fact);
      var turn := TurnEntry(turnId);
      match fact {
        case TurnConfigured(config) =>
          turn := turn.(threadId := Some(config.threadId), images := Some(config.images), config := Some(config));
        case TokensUsed(_, threadId, usage) => turn := turn.(threadId := Some(threadId), tokenUsage := Some(usage));
        case TurnProfiled(_, profile) => turn := turn.(profile := Some(profile));
        case TurnErred(_, threadId, error) =>
          if turn.threadId.None? {
            turn := turn.(threadId := Some(threadId));
          }
          turn := turn.(codexError := Some(error));
        case TurnStarted(_, startedAt) => turn := turn.(startedAt := AsUnsignedOption(startedAt));
        case DiffUpdated(_, threadId, diff) => turn := turn.(threadId := Some(threadId), latestDiff := Some(diff));
        case TurnCompleted(_, status, failure, completedAt, durationMs) =>
          var at := AsUnsignedOption(completedAt);
          turn := turn.(completed := Some(Completion(status, failure, if at.Some? then at.value else 0, AsUnsignedOption(durationMs))));
      }
      turns := turns[turnId := turn];
      events := [];
      if fact.TurnConfigured? || fact.TokensUsed? || fact.TurnProfiled? || fact.TurnCompleted? {
        events := MaybeEmitTurnEvent(turnId, env);
        PutTwice(old(turns), turnId, turn, Settle(Known(), turnId, turn, env).next);
      }
    }

    // ----- requests -----

    /** Takes a request off the map. */
    method TakeRequest(connectionId: nat, requestId: RequestId) returns (request: Option<Request>)
      modifies this`requests
      ensures request == Get(old(requests), (connectionId, requestId))
      ensures requests == old(requests) - {(connectionId, requestId)}
    {
      request := Get(requests, (connectionId, requestId));
      requests := requests - {(connectionId, requestId)};
    }

    method EmitTurnSteerEvent(connectionId: nat, request: Request, accepted: Option<string>, reason: Option<Payload>)
      returns (events: seq<Event>)
      ensures events == SteerEvents(Known(), connectionId, request, accepted, reason)
    {
      events := [];
      if connectionId !in connections || request.threadId !in threads || threads[request.threadId].metadata.None? {
        return;
      }
      events := [SteerEvent(request, accepted, connections[connectionId], threads[request.threadId].metadata.value, reason)];
    }

    method IngestTurnStartResponse(fact: Fact, env: Env) returns (events: seq<Event>)
      requires fact.TurnStartAnswered?
      modifies this`requests, this`turns
      ensures Out(Snapshot(), events) == RequestStep(old(Snapshot()), fact, env)
    {
      var request := TakeRequest(fact.connectionId, fact.requestId);
      events := [];
      if request.None? || request.value.TurnSteer? {
        return;
      }
      var turn := TurnEntry(fact.turnId);
      turn := turn.(connectionId := Some(fact.connectionId), threadId := Some(request.value.threadId), images := Some(request.value.images));
      turns := turns[fact.turnId := turn];
      events := MaybeEmitTurnEvent(fact.turnId, env);
      PutTwice(old(turns), fact.turnId, turn, Settle(Known(), fact.turnId, turn, env).next);
    }

    method IngestTurnSteerResponse(fact: Fact, env: Env) returns (events: seq<Event>)
      requires fact.TurnSteerAnswered?
      modifies this`requests, this`turns
      ensures Out(Snapshot(), events) == RequestStep(old(Snapshot()), fact, env)
    {
      var request := TakeRequest(fact.connectionId, fact.requestId);
      events := [];
      if request.None? || request.value.TurnStart? {
        return;
      }
      if fact.turnId in turns {
        var turn := turns[fact.turnId];
        turns := turns[fact.turnId := turn.(steerCount := turn.steerCount + 1)];
      } else {
        assert turns == Put(turns, fact.turnId, None);
      }
      events := EmitTurnSteerEvent(fact.connectionId, request.value, Some(fact.turnId), None);
    }

    method IngestErrorResponse(fact: Fact, env: Env) returns (events: seq<Event>)
      requires fact.RequestFailed?
      modifies this`requests
      ensures Out(Snapshot(), events) == RequestStep(old(Snapshot()), fact, env)
    {
      var request := TakeRequest(fact.connectionId, fact.requestId);
      events := [];
      if request.Some? && request.value.TurnSteer? {
        events := EmitTurnSteerEvent(fact.connectionId, request.value, None, fact.reason);
      }
    }

    method IngestRequestFact(fact: Fact, env: Env) returns (events: seq<Event>)
      requires IsRequestFact(fact)
      modifies this`requests, this`turns
      ensures Out(Snapshot(), events) == RequestStep(old(Snapshot()), fact, env)
    {
      events := [];
      match fact
      case TurnStartRequested(connectionId, requestId, threadId, images) =>
        requests := requests[(connectionId, requestId) := TurnStart(threadId, images)];
      case TurnSteerRequested(connectionId, requestId, threadId, expected, images) =>
        requests := requests[(connectionId, requestId) := TurnSteer(threadId, expected, images, env.now)];
      case TurnStartAnswered(_, _, _) => events := IngestTurnStartResponse(fact, env);
      case TurnSteerAnswered(_, _, _) => events := IngestTurnSteerResponse(fact, env);
      case RequestFailed(_, _, _) => events := IngestErrorResponse(fact, env);
    }

    // ----- reviews and items -----

    method ThreadContextOrWarn(threadId: string) returns (context: Option<Context>)
      ensures context == ThreadContext(Known(), threadId)
    {
      context := None;
      if threadId in threads {
        var thread := threads[threadId];
        if thread.connectionId.Some? && thread.connectionId.value in connections && thread.metadata.Some? {
          context := Some(Context(connections[thread.connectionId.value], thread.metadata.value));
        }
      }
    }

    method RecordItemReviewSummary(key: ItemKey, reviewer: Reviewer, verdict: Verdict, review: Review)
      modifies this`itemReviewSummaries
      ensures itemReviewSummaries ==
        old(itemReviewSummaries)[key := Counted(OrElse(Get(old(itemReviewSummaries), key), NO_REVIEWS), reviewer, verdict, review)]
    {
      var summary := if key in itemReviewSummaries then itemReviewSummaries[key] else NO_REVIEWS;
      summary := summary.(reviews := summary.reviews + 1);
      match reviewer {
        case Guardian => summary := summary.(guardianReviews := summary.guardianReviews + 1);
        case User => summary := summary.(userReviews := summary.userReviews + 1);
      }
      summary := summary.(outcome := Some(FinalApproval(reviewer, verdict)));
      if review.morePermissions {
        summary := summary.(morePermissions := true);
      }
      if review.network {
        summary := summary.(network := true);
      }
      itemReviewSummaries := itemReviewSummaries[key := summary];
    }

    method EmitReviewEvent(review: Review, reviewer: Reviewer, verdict: Verdict, completedAt: nat) returns (events: seq<Event>)
      modifies this`itemReviewSummaries
      ensures Out(ToolState(), events) == EmitReview(Known(), old(ToolState()), review, reviewer, verdict, completedAt)
    {
      var key := SummaryKey(review);
      if key.Some? {
        RecordItemReviewSummary(key.value, reviewer, verdict, review);
      }
      events := [];
      var context := ThreadContextOrWarn(review.threadId);
      if context.Some? {
        events := [ReviewEvent(review, context.value.connection, context.value.metadata, reviewer, verdict, completedAt,
                     Elapsed(review.startedAt, completedAt))];
      }
    }

    method IngestToolFact(fact: Fact) returns (events: seq<Event>)
      requires IsToolFact(fact)
      modifies this`toolItemsStartedAtMs, this`pendingReviews, this`itemReviewSummaries
      ensures Out(ToolState(), events) == ToolStep(Known(), old(ToolState()), fact)
    {
      events := [];
      match fact
      case ItemStarted(threadId, turnId, item, startedAtMs) =>
        var id := TrackedId(item);
        if id.Some? && startedAtMs >= 0 {
          toolItemsStartedAtMs := toolItemsStartedAtMs[ItemKey(threadId, turnId, id.value) := startedAtMs];
        }
      case ReviewAsked(requestId, threadId, turnId, itemId, startedAtMs, ask) =>
        var review := Opened(requestId, threadId, turnId, itemId, startedAtMs, ask);
        if review.Some? {
          pendingReviews := pendingReviews[requestId := review.value];
        }
      case ReviewAnswered(requestId, answer, answeredAtMs) =>
        if requestId in pendingReviews {
          var review := pendingReviews[requestId];
          pendingReviews := pendingReviews - {requestId};
          events := EmitReviewEvent(review, User, VerdictOf(answer), answeredAtMs);
        }
      case GuardianReviewed(_, _, _, _, _, _, _, completedAtMs) =>
        var terminal := GuardianTerminal(fact);
        if terminal.Some? {
          events := EmitReviewEvent(terminal.value.review, Guardian, terminal.value.verdict, completedAtMs);
        }
    }

    /** The part of an item's completion after the tool has been counted. */
    method FinishToolItem(key: ItemKey, item: Item, completedAtMs: int) returns (events: seq<Event>)
      modifies this`toolItemsStartedAtMs, this`itemReviewSummaries
      ensures Out(ToolState(), events) == FinishItem(Known(), old(ToolState()), key, item, completedAtMs)
    {
      events := [];
      if key !in toolItemsStartedAtMs {
        return;
      }
      var startedAt := toolItemsStartedAtMs[key];
      toolItemsStartedAtMs := toolItemsStartedAtMs - {key};
      if completedAtMs < 0 {
        return;
      }
      var context := ThreadContextOrWarn(key.threadId);
      if context.None? {
        return;
      }
      events := ToolEvents(context.value, key, item, startedAt, completedAtMs, Get(itemReviewSummaries, key));
      itemReviewSummaries := itemReviewSummaries - {key};
    }

    method IngestItemCompleted(fact: Fact) returns (events: seq<Event>)
      requires fact.ItemCompleted?
      modifies this`turns, this`toolItemsStartedAtMs, this`itemReviewSummaries
      ensures Out(Snapshot(), events) == ItemStep(old(Snapshot()), fact)
    {
      events := [];
      if fact.item.UntrackedItem? || fact.turnId !in turns {
        return;
      }
      var turn := turns[fact.turnId];
      turns := turns[fact.turnId := turn.(toolCounts := Recorded(turn.toolCounts, fact.item))];
      if fact.item.SubAgentActivity? {
        return;
      }
      events := FinishToolItem(ItemKey(fact.threadId, fact.turnId, fact.item.id), fact.item, fact.completedAtMs);
    }

    // ----- every fact -----

    method IngestSetup(fact: Fact) returns (events: seq<Event>)
      requires IsSetup(fact)
      modifies this`connections, this`threads
      ensures Out(Known(), events) == SetupStep(old(Known()), fact)
    {
      match fact
      case Initialized(connectionId, connection) =>
        IngestInitialize(connectionId, connection);
        events := [];
      case ThreadOpened(connectionId, thread, mode) => events := EmitThreadInitialized(connectionId, thread, mode);
      case SubAgentStarted(_, _, _, _, _, _) => events := IngestSubagentThreadStarted(fact);
    }

    method IngestThreadFact(kind: ThreadKind, threadId: string, details: Payload) returns (events: seq<Event>)
      ensures events == ThreadEvents(Known(), kind, threadId, details)
    {
      events := [];
      var context := ThreadContextOrWarn(threadId);
      if context.Some? {
        events := [ThreadEvent(kind, threadId, details, context.value.connection, context.value.metadata)];
      }
    }

    method Ingest(input: Input) returns (events: seq<Event>)
      requires Valid()
      modifies this
      ensures Valid() && inputs == old(inputs) + [input] && emitted == old(emitted) + events
      ensures Out(Snapshot(), events) == Step(old(Snapshot()), input)
    {
      events := IngestFact(input);
      RunOneMore(inputs, input);
      inputs, emitted := inputs + [input], emitted + events;
    }

    method IngestFact(input: Input) returns (events: seq<Event>)
      modifies this`requests, this`turns, this`connections, this`threads,
        this`toolItemsStartedAtMs, this`pendingReviews, this`itemReviewSummaries
      ensures Out(Snapshot(), events) == Step(old(Snapshot()), input)
    {
      var fact := input.fact;
      if IsSetup(fact) {
        events := IngestSetup(fact);
      } else if IsTurnFact(fact) {
        events := IngestTurnFact(fact, input.env);
      } else if IsRequestFact(fact) {
        events := IngestRequestFact(fact, input.env);
      } else if IsToolFact(fact) {
        events := IngestToolFact(fact);
      } else if fact.ItemCompleted? {
        events := IngestItemCompleted(fact);
      } else if fact.ThreadReported? {
        events := IngestThreadFact(fact.kind, fact.threadId, fact.details);
      } else {
        events := seq(|fact.payloads|, i requires 0 <= i < |fact.payloads| => PlainEvent(fact.payloads[i]));
      }
    }
  }

  /** Whatever facts a reducer was given, its events, turns and threads are what their histories say. */
  lemma ReducersKeepHistory(reducer: AnalyticsReducer, t: string)
    requires reducer.Valid()
    ensures Matches(Get(reducer.turns, t), History(reducer.inputs, t))
    ensures ThreadMatches(reducer.Known(), reducer.inputs, t)
    ensures reducer.emitted == EmissionHistory.AllEvents(reducer.inputs)
  {
    EmissionHistory.EventsAreHistory(reducer.inputs);
    TurnsAreHistory(reducer.inputs, t);
    ThreadsAreHistory(reducer.inputs, t);
  }
}
