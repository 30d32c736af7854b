/** Turn reports are exact: every field of a turn event is the latest fact of its kind, or the count of
    facts of its kind, since the turn was last reported. */
module TurnHistory {
  import opened Text
  import opened AnalyticsModel
  import opened Reducer
  import opened TurnRuns
  import opened DirectoryHistory

  /** What can happen to a turn. */
  datatype Touch =
    | Filled(fact: Fact)
    | Claimed(connectionId: nat, threadId: string, images: nat)
    | Steered
    | UsedTool(item: Item)

  /** What a fact does to a turn, in the state it arrives in. Steers and tools count only for turns
      already known. */
  function TouchOf(s: State, fact: Fact, t: string): Option<Touch> {
    if IsTurnFact(fact) then (if TurnIdOf(fact) == t then Some(Filled(fact)) else None)
    else if fact.TurnStartAnswered? || fact.TurnSteerAnswered? then
      if AnsweredTurn(s.requests, fact) != Some(t) then None
      else if fact.TurnStartAnswered? then
        var request := s.requests[RequestKey(fact)];
        Some(Claimed(fact.connectionId, request.threadId, request.images))
      else if t in s.turns then Some(Steered) else None
    else if fact.ItemCompleted? && fact.turnId == t && t in s.turns && !fact.item.UntrackedItem? then Some(UsedTool(fact.item))
    else None
  }

  function Appended(history: seq<Touch>, touch: Option<Touch>): seq<Touch> {
    if touch.Some? then history + [touch.value] else history
  }

  predicate ReportsTurn(events: seq<Event>, t: string) {
    exists i :: 0 <= i < |events| && events[i].TurnEvent? && events[i].report.turnId == t
  }

  /** What happened to a turn since it was last reported. */
  function History(inputs: seq<Input>, t: string): seq<Touch> {
    if inputs == [] then []
    else
      var front, last := inputs[..|inputs| - 1], inputs[|inputs| - 1];
      var before := Run(front).next;
      if ReportsTurn(Step(before, last).events, t) then []
      else Appended(History(front, t), TouchOf(before, last.fact, t))
  }

  // ----- what a history says about a turn -----

  function Latest<T>(history: seq<Touch>, pick: Touch -> Option<T>): Option<T> {
    if history == [] then None
    else Or(pick(history[|history| - 1]), Latest(history[..|history| - 1], pick))
  }

  function First<T>(history: seq<Touch>, pick: Touch -> Option<T>): Option<T> {
    if history == [] then None
    else Or(First(history[..|history| - 1], pick), pick(history[|history| - 1]))
  }

  function Count(history: seq<Touch>, counted: Touch -> bool): nat {
    if history == [] then 0
    else Count(history[..|history| - 1], counted) + (if counted(history[|history| - 1]) then 1 else 0)
  }

  function ConfigIn(x: Touch): Option<TurnConfig> {
    if x.Filled? && x.fact.TurnConfigured? then Some(x.fact.config) else None
  }

  function ProfileIn(x: Touch): Option<Payload> {
    if x.Filled? && x.fact.TurnProfiled? then Some(x.fact.profile) else None
  }

  function CompletionIn(x: Touch): Option<Completion> {
    if x.Filled? && x.fact.TurnCompleted?
    then Some(Completion(x.fact.status, x.fact.failure, OrElse(AsUnsignedOption(x.fact.completedAt), 0), AsUnsignedOption(x.fact.durationMs)))
    else None
  }

  function UsageIn(x: Touch): Option<Payload> {
    if x.Filled? && x.fact.TokensUsed? then Some(x.fact.usage) else None
  }

  function ErrorIn(x: Touch): Option<Payload> {
    if x.Filled? && x.fact.TurnErred? then Some(x.fact.error) else None
  }

  function StartIn(x: Touch): Option<Option<nat>> {
    if x.Filled? && x.fact.TurnStarted? then Some(AsUnsignedOption(x.fact.startedAt)) else None
  }

  function DiffIn(x: Touch): Option<string> {
    if x.Filled? && x.fact.DiffUpdated? then Some(x.fact.diff) else None
  }

  function ConnectionIn(x: Touch): Option<nat> {
    if x.Claimed? then Some(x.connectionId) else None
  }

  function ImagesIn(x: Touch): Option<nat> {
    if x.Claimed? then Some(x.images) else if x.Filled? && x.fact.TurnConfigured? then Some(x.fact.config.images) else None
  }

  /** The thread a touch settles; an error only suggests one. */
  function ThreadIn(x: Touch): Option<string> {
    if x.Claimed? then Some(x.threadId)
    else if !x.Filled? then None
    else if x.fact.TurnConfigured? then Some(x.fact.config.threadId)
    else if x.fact.TokensUsed? || x.fact.DiffUpdated? then Some(x.fact.threadId)
    else None
  }

  function SuggestedThreadIn(x: Touch): Option<string> {
    if x.Filled? && x.fact.TurnErred? then Some(x.fact.threadId) else None
  }

  predicate IsSteer(x: Touch) { x.Steered? }

  predicate IsTool(x: Touch) { x.UsedTool? }

  predicate IsShell(x: Touch) { x.UsedTool? && x.item.CommandExecution? }

  predicate IsFile(x: Touch) { x.UsedTool? && x.item.FileChange? }

  predicate IsMcp(x: Touch) { x.UsedTool? && x.item.McpToolCall? }

  predicate IsDynamic(x: Touch) { x.UsedTool? && x.item.DynamicToolCall? }

  predicate IsSubagent(x: Touch) { x.UsedTool? && (x.item.CollabAgentToolCall? || x.item.SubAgentActivity?) }

  predicate IsSearch(x: Touch) { x.UsedTool? && x.item.WebSearch? }

  predicate IsImage(x: Touch) { x.UsedTool? && x.item.ImageGeneration? }

  function ToolsIn(history: seq<Touch>): ToolCounts {
    ToolCounts(Count(history, IsTool), Count(history, IsShell), Count(history, IsFile), Count(history, IsMcp),
      Count(history, IsDynamic), Count(history, IsSubagent), Count(history, IsSearch), Count(history, IsImage))
  }

  predicate PartsOf(turn: Turn, history: seq<Touch>) {
    && turn.config == Latest(history, ConfigIn)
    && turn.profile == Latest(history, ProfileIn)
    && turn.completed == Latest(history, CompletionIn)
  }

  predicate ExtrasOf(turn: Turn, history: seq<Touch>) {
    && turn.tokenUsage == Latest(history, UsageIn)
    && turn.codexError == Latest(history, ErrorIn)
    && turn.startedAt == OrElse(Latest(history, StartIn), None)
    && turn.latestDiff == Latest(history, DiffIn)
  }

  predicate PlaceOf(turn: Turn, history: seq<Touch>) {
    && turn.connectionId == Latest(history, ConnectionIn)
    && turn.images == Latest(history, ImagesIn)
    && turn.threadId == Or(Latest(history, ThreadIn), First(history, SuggestedThreadIn))
  }

  predicate CountsOf(turn: Turn, history: seq<Touch>) {
    turn.steerCount == Count(history, IsSteer) && turn.toolCounts == ToolsIn(history)
  }

  predicate Describes(turn: Turn, history: seq<Touch>) {
    PartsOf(turn, history) && ExtrasOf(turn, history) && PlaceOf(turn, history) && CountsOf(turn, history)
  }

  // ----- one touch -----

  lemma LatestNext<T>(history: seq<Touch>, x: Touch, pick: Touch -> Option<T>)
    ensures Latest(history + [x], pick) == Or(pick(x), Latest(history, pick))
    ensures First(history + [x], pick) == Or(First(history, pick), pick(x))
  {
    assert (history + [x])[..|history|] == history;
  }

  lemma CountNext(history: seq<Touch>, x: Touch, counted: Touch -> bool)
    ensures Count(history + [x], counted) == Count(history, counted) + (if counted(x) then 1 else 0)
  {
    assert (history + [x])[..|history|] == history;
  }

  /** What a touch makes of a turn. */
  function Apply(turn: Turn, x: Touch): Turn
    requires x.Filled? ==> IsTurnFact(x.fact)
  {
    match x
    case Filled(fact) => FilledIn(turn, fact)
    case Claimed(connectionId, threadId, images) =>
      turn.(connectionId := Some(connectionId), threadId := Some(threadId), images := Some(images))
    case Steered => turn.(steerCount := turn.steerCount + 1)
    case UsedTool(item) => turn.(toolCounts := Recorded(turn.toolCounts, item))
  }

  lemma ApplyParts(turn: Turn, history: seq<Touch>, x: Touch)
    requires (x.Filled? ==> IsTurnFact(x.fact)) && PartsOf(turn, history)
    ensures PartsOf(Apply(turn, x), history + [x])
  {
    LatestNext(history, x, ConfigIn);
    LatestNext(history, x, ProfileIn);
    LatestNext(history, x, CompletionIn);
  }

  lemma ApplyExtras(turn: Turn, history: seq<Touch>, x: Touch)
    requires (x.Filled? ==> IsTurnFact(x.fact)) && ExtrasOf(turn, history)
    ensures ExtrasOf(Apply(turn, x), history + [x])
  {
    LatestNext(history, x, UsageIn);
    LatestNext(history, x, ErrorIn);
    LatestNext(history, x, StartIn);
    LatestNext(history, x, DiffIn);
  }

  lemma ApplyPlace(turn: Turn, history: seq<Touch>, x: Touch)
    requires (x.Filled? ==> IsTurnFact(x.fact)) && PlaceOf(turn, history)
    ensures PlaceOf(Apply(turn, x), history + [x])
  {
    LatestNext(history, x, ConnectionIn);
    LatestNext(history, x, ImagesIn);
    LatestNext(history, x, ThreadIn);
    LatestNext(history, x, SuggestedThreadIn);
  }

  lemma ToolsNext(history: seq<Touch>, x: Touch)
    requires x.UsedTool? ==> !x.item.UntrackedItem?
    ensures ToolsIn(history + [x]) == if x.UsedTool? then Recorded(ToolsIn(history), x.item) else ToolsIn(history)
  {
    CountNext(history, x, IsTool);
    CountNext(history, x, IsShell);
    CountNext(history, x, IsFile);
    CountNext(history, x, IsMcp);
    CountNext(history, x, IsDynamic);
    CountNext(history, x, IsSubagent);
    CountNext(history, x, IsSearch);
    CountNext(history, x, IsImage);
  }

  ghost predicate Proper(x: Touch) {
    (x.Filled? ==> IsTurnFact(x.fact)) && (x.UsedTool? ==> !x.item.UntrackedItem?)
  }

  lemma ApplyCounts(turn: Turn, history: seq<Touch>, x: Touch)
    requires Proper(x) && CountsOf(turn, history)
    ensures CountsOf(Apply(turn, x), history + [x])
  {
    ToolsNext(history, x);
    CountNext(history, x, IsSteer);
  }

  lemma ApplyDescribes(turn: Turn, history: seq<Touch>, x: Touch, turn': Turn)
    requires Proper(x) && Describes(turn, history) && turn' == Apply(turn, x)
    ensures Describes(turn', history + [x])
  {
    ApplyParts(turn, history, x);
    ApplyExtras(turn, history, x);
    ApplyPlace(turn, history, x);
    ApplyCounts(turn, history, x);
  }

  // ----- one step -----

  /** The turn known under `t` is what its history says; it is unknown while nothing has happened. */
  ghost predicate Matches(turn: Option<Turn>, history: seq<Touch>) {
    (turn.None? <==> history == []) && Describes(OrElse(turn, NEW_TURN), history)
  }

  lemma NothingMatches()
    ensures Matches(None, [])
  {
  }

  /** A report says what the history and the directory say. */
  ghost predicate ReportMatches(report: TurnReport, t: string, history: seq<Touch>, d: Directory) {
    && report.turnId == t
    && Latest(history, ConfigIn) == Some(report.config)
    && Latest(history, ProfileIn) == Some(report.profile)
    && Latest(history, CompletionIn) == Some(report.completed)
    && Latest(history, UsageIn) == report.tokenUsage
    && Latest(history, ErrorIn) == report.codexError
    && OrElse(Latest(history, StartIn), None) == report.startedAt
    && Latest(history, ImagesIn) == Some(report.images)
    && Or(Latest(history, ThreadIn), First(history, SuggestedThreadIn)) == Some(report.threadId)
    && Count(history, IsSteer) == report.steerCount
    && ToolsIn(history) == report.toolCounts
    && ContextVia(d, Or(Latest(history, ConnectionIn), ThreadConnectionId(d, report.threadId)), report.threadId)
         == Some(Context(report.connection, report.metadata))
  }

  lemma ReportDescribed(turn: Turn, history: seq<Touch>, t: string, d: Directory, report: TurnReport)
    requires Describes(turn, history) && Reportable(d, turn) && report == Report(t, turn, TurnContext(d, turn).value)
    ensures ReportMatches(report, t, history, d)
  {
  }

  /** What a step does to a turn: nothing, or one touch, after which the turn may be reported. */
  ghost predicate Follows(turn: Option<Turn>, history: seq<Touch>, touch: Option<Touch>, next: Option<Turn>, events: seq<Event>, t: string,
    d: Directory)
  {
    var history' := Appended(history, touch);
    if ReportsTurn(events, t)
    then next.None? && forall i :: 0 <= i < |events| && events[i].TurnEvent? && events[i].report.turnId == t ==>
           ReportMatches(events[i].report, t, history', d)
    else Matches(next, history')
  }

  lemma SettleFollows(d: Directory, t: string, turn: Turn, env: Env, history: seq<Touch>, out: Out<Option<Turn>>)
    requires out == Settle(d, t, turn, env) && Describes(turn, history) && history != []
    ensures if ReportsTurn(out.events, t)
      then out.next.None? && forall i :: 0 <= i < |out.events| && out.events[i].TurnEvent? ==> ReportMatches(out.events[i].report, t, history, d)
      else Matches(out.next, history)
  {
    if Reportable(d, turn) {
      var context := TurnContext(d, turn).value;
      assert out.events[0] == TurnEvent(Report(t, turn, context));
      assert ReportsTurn(out.events, t);
      forall i | 0 <= i < |out.events| && out.events[i].TurnEvent? ensures ReportMatches(out.events[i].report, t, history, d) {
        ReportDescribed(turn, history, t, d, out.events[i].report);
      }
    }
  }

  lemma TurnFactFollows(s: State, fact: Fact, env: Env, history: seq<Touch>, out: Out<Option<Turn>>, t: string)
    requires IsTurnFact(fact) && t == TurnIdOf(fact) && Matches(Get(s.turns, t), history)
    requires out == TurnStep(s.directory, Get(s.turns, t), fact, env)
    ensures Follows(Get(s.turns, t), history, Some(Filled(fact)), out.next, out.events, t, s.directory)
  {
    var turn := OrElse(Get(s.turns, t), NEW_TURN);
    ApplyDescribes(turn, history, Filled(fact), FilledIn(turn, fact));
    if MayReport(fact) {
      SettleFollows(s.directory, t, FilledIn(turn, fact), env, history + [Filled(fact)], out);
    }
  }

  lemma StartFollows(d: Directory, request: Request, turn: Option<Turn>, fact: Fact, env: Env, history: seq<Touch>, x: Touch,
    out: Out<Option<Turn>>, t: string)
    requires fact.TurnStartAnswered? && fact.turnId == t && Matches(turn, history)
    requires x == Claimed(fact.connectionId, request.threadId, request.images) && out == AnsweredStep(d, request, turn, fact, env)
    ensures Follows(turn, history, Some(x), out.next, out.events, t, d)
  {
    var claimed := Reducer.Claimed(turn, fact.connectionId, request);
    ApplyDescribes(OrElse(turn, NEW_TURN), history, x, claimed);
    SettleFollows(d, t, claimed, env, history + [x], out);
  }

  lemma SteerFollows(d: Directory, request: Request, turn: Option<Turn>, fact: Fact, env: Env, history: seq<Touch>,
    touch: Option<Touch>, out: Out<Option<Turn>>, t: string)
    requires fact.TurnSteerAnswered? && fact.turnId == t && Matches(turn, history)
    requires touch == (if turn.Some? then Some(Steered) else None) && out == AnsweredStep(d, request, turn, fact, env)
    ensures Follows(turn, history, touch, out.next, out.events, t, d)
  {
    assert out.events == SteerEvents(d, fact.connectionId, request, Some(t), None);
    assert !ReportsTurn(out.events, t);
    if turn.Some? {
      ApplyDescribes(turn.value, history, Steered, Reducer.Steered(turn).value);
    }
  }

  lemma AnsweredFollows(s: State, fact: Fact, env: Env, history: seq<Touch>, out: Out<Option<Turn>>, t: string)
    requires IsRequestFact(fact) && AnsweredTurn(s.requests, fact) == Some(t) && Matches(Get(s.turns, t), history)
    requires out == AnsweredStep(s.directory, s.requests[RequestKey(fact)], Get(s.turns, t), fact, env)
    ensures Follows(Get(s.turns, t), history, TouchOf(s, fact, t), out.next, out.events, t, s.directory)
  {
    var turn, request, touch := Get(s.turns, t), s.requests[RequestKey(fact)], TouchOf(s, fact, t);
    if fact.TurnStartAnswered? {
      StartFollows(s.directory, request, turn, fact, env, history, touch.value, out, t);
    } else {
      SteerFollows(s.directory, request, turn, fact, env, history, touch, out, t);
    }
  }

  lemma RequestFollows(s: State, fact: Fact, env: Env, history: seq<Touch>, out: Out<State>, t: string)
    requires IsRequestFact(fact) && Matches(Get(s.turns, t), history) && out == RequestStep(s, fact, env)
    ensures Follows(Get(s.turns, t), history, TouchOf(s, fact, t), Get(out.next.turns, t), out.events, t, s.directory)
  {
    var answered := AnsweredTurn(s.requests, fact);
    if answered.Some? {
      var u := answered.value;
      var next := AnsweredStep(s.directory, s.requests[RequestKey(fact)], Get(s.turns, u), fact, env);
      PutElsewhere(s.turns, u, next.next, t);
      if u == t {
        AnsweredFollows(s, fact, env, history, next, t);
      } else {
        AnsweredNamesItsTurn(s.directory, s.requests[RequestKey(fact)], Get(s.turns, u), fact, env, t, next);
        SilentIsNoReport(out.events, t);
      }
    } else {
      assert !ReportsTurn(out.events, t);
    }
  }

  lemma SilentIsNoReport(events: seq<Event>, t: string)
    requires Silent(events, t)
    ensures !ReportsTurn(events, t)
  {
  }

  lemma ItemFollows(s: State, fact: Fact, history: seq<Touch>, out: Out<State>, t: string)
    requires fact.ItemCompleted? && Matches(Get(s.turns, t), history) && out == ItemStep(s, fact)
    ensures Follows(Get(s.turns, t), history, TouchOf(s, fact, t), Get(out.next.turns, t), out.events, t, s.directory)
  {
    ItemStepIsSilent(s, fact, t, out);
    SilentIsNoReport(out.events, t);
    PutElsewhere(s.turns, fact.turnId, CountedTool(Get(s.turns, fact.turnId), fact.item), t);
    if fact.turnId == t && t in s.turns && !fact.item.UntrackedItem? {
      ApplyDescribes(s.turns[t], history, UsedTool(fact.item), CountedTool(Get(s.turns, t), fact.item).value);
    }
  }

  lemma OtherFollows(s: State, input: Input, history: seq<Touch>, out: Out<State>, t: string)
    requires !Touches(input.fact, t) && Matches(Get(s.turns, t), history) && out == Step(s, input)
    ensures Follows(Get(s.turns, t), history, TouchOf(s, input.fact, t), Get(out.next.turns, t), out.events, t, s.directory)
  {
    OtherFactsLeaveView(s, input, t, out);
    SilentIsNoReport(out.events, t);
  }

  lemma SetupFollows(s: State, input: Input, history: seq<Touch>, out: Out<State>, t: string)
    requires IsSetup(input.fact) && Matches(Get(s.turns, t), history) && out == Step(s, input)
    ensures Follows(Get(s.turns, t), history, TouchOf(s, input.fact, t), Get(out.next.turns, t), out.events, t, s.directory)
  {
    assert !ReportsTurn(SetupStep(s.directory, input.fact).events, t);
  }

  lemma StepFollows(s: State, input: Input, history: seq<Touch>, out: Out<State>, t: string)
    requires Matches(Get(s.turns, t), history) && out == Step(s, input)
    ensures Follows(Get(s.turns, t), history, TouchOf(s, input.fact, t), Get(out.next.turns, t), out.events, t, s.directory)
  {
    var fact := input.fact;
    if !Touches(fact, t) {
      OtherFollows(s, input, history, out, t);
    } else if IsSetup(fact) {
      SetupFollows(s, input, history, out, t);
    } else if IsTurnFact(fact) {
      var next := TurnStep(s.directory, Get(s.turns, t), fact, input.env);
      TurnFactFollows(s, fact, input.env, history, next, t);
      PutElsewhere(s.turns, t, next.next, t);
    } else if IsRequestFact(fact) {
      RequestFollows(s, fact, input.env, history, out, t);
    } else {
      ItemFollows(s, fact, history, out, t);
    }
  }

  // ----- whole runs -----

  /** In every run the state kept for a turn is what its history since the last report says. */
  lemma {:induction false} TurnsAreHistory(inputs: seq<Input>, t: string)
    ensures Matches(Get(Run(inputs).next.turns, t), History(inputs, t))
  {
    if inputs == [] {
      NothingMatches();
    } else {
      var front, last := inputs[..|inputs| - 1], inputs[|inputs| - 1];
      TurnsAreHistory(front, t);
      var before := Run(front).next;
      StepFollows(before, last, History(front, t), Step(before, last), t);
      NothingMatches();
    }
  }

  /** Every turn event of every run says what the turn's history since its last report says, and carries the
      connection and metadata that the facts about its thread and connections gave them. */
  lemma TurnReportsAreHistory(inputs: seq<Input>, input: Input, i: nat, out: Out<State>, t: string, history: seq<Touch>)
    requires out == Step(Run(inputs).next, input) && i < |out.events|
    requires out.events[i].TurnEvent? && out.events[i].report.turnId == t
    requires history == Appended(History(inputs, t), TouchOf(Run(inputs).next, input.fact, t))
    ensures ReportMatches(out.events[i].report, t, history, Run(inputs).next.directory)
    ensures var report := out.events[i].report;
      var connectionId := Or(Latest(history, ConnectionIn), ConnectionOfThread(inputs, report.threadId));
      && connectionId.Some? && LastInitialized(inputs, connectionId.value) == Some(report.connection)
      && MetadataOfThread(inputs, report.threadId) == Some(report.metadata)
  {
    TurnsAreHistory(inputs, t);
    StepFollows(Run(inputs).next, input, History(inputs, t), out, t);
    var report := out.events[i].report;
    ThreadsAreHistory(inputs, report.threadId);
    ConnectionsAreHistory(inputs, OrElse(Or(Latest(history, ConnectionIn), ConnectionOfThread(inputs, report.threadId)), 0));
  }
}
