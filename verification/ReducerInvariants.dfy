/** What every reachable state of the reducer keeps. */
module ReducerInvariants {
  import opened Text
  import opened AnalyticsModel
  import opened Reducer

  /** Only three kinds of fact change what is known of connections and threads. */
  lemma StepKeepsDirectory(s: State, input: Input)
    requires !IsSetup(input.fact)
    ensures Step(s, input).next.directory == s.directory
  {
  }

  /** Every known thread has metadata, and its connection, if it has one, is initialised. */
  ghost predicate Sound(d: Directory) {
    forall t :: t in d.threads ==>
      && d.threads[t].metadata.Some?
      && (d.threads[t].connectionId.Some? ==> d.threads[t].connectionId.value in d.connections)
  }

  lemma SetupIsSound(d: Directory, fact: Fact)
    requires Sound(d) && IsSetup(fact)
    ensures Sound(SetupStep(d, fact).next)
  {
  }

  lemma StepIsSound(s: State, input: Input)
    requires Sound(s.directory)
    ensures Sound(Step(s, input).next.directory)
  {
    if IsSetup(input.fact) {
      SetupIsSound(s.directory, input.fact);
    } else {
      StepKeepsDirectory(s, input);
    }
  }

  lemma {:induction false} RunIsSound(s: State, inputs: seq<Input>)
    requires Sound(s.directory)
    ensures Sound(RunFrom(s, inputs).next.directory)
  {
    if inputs != [] {
      RunIsSound(s, inputs[..|inputs| - 1]);
      StepIsSound(RunFrom(s, inputs[..|inputs| - 1]).next, inputs[|inputs| - 1]);
    }
  }

  /** In every reachable state a thread's context is missing only because the thread is unknown or has
      no connection id. */
  lemma ContextMissingExactly(inputs: seq<Input>, threadId: string)
    ensures var d := Run(inputs).next.directory;
      ThreadContext(d, threadId).None? <==> threadId !in d.threads || d.threads[threadId].connectionId.None?
  {
    RunIsSound(EMPTY, inputs);
  }

  // ----- tool counts -----

  predicate Balanced(counts: ToolCounts) {
    counts.total == counts.shellCommand + counts.fileChange + counts.mcpToolCall + counts.dynamicToolCall +
      counts.subagentToolCall + counts.webSearch + counts.imageGeneration
  }

  ghost predicate TurnBalanced(turn: Option<Turn>) {
    turn.Some? ==> Balanced(turn.value.toolCounts)
  }

  ghost predicate AllBalanced(turns: map<string, Turn>) {
    forall t :: t in turns ==> Balanced(turns[t].toolCounts)
  }

  ghost predicate ReportsBalanced(events: seq<Event>) {
    forall i :: 0 <= i < |events| && events[i].TurnEvent? ==> Balanced(events[i].report.toolCounts)
  }

  lemma PutBalanced(turns: map<string, Turn>, t: string, turn: Option<Turn>)
    requires AllBalanced(turns) && TurnBalanced(turn)
    ensures AllBalanced(Put(turns, t, turn))
  {
  }

  /** The turn and its report, if there is one, have these counts. */
  ghost predicate Carries(out: Out<Option<Turn>>, counts: ToolCounts) {
    && (out.next.Some? ==> out.next.value.toolCounts == counts)
    && forall i :: 0 <= i < |out.events| && out.events[i].TurnEvent? ==> out.events[i].report.toolCounts == counts
  }

  lemma SettleCarries(d: Directory, turnId: string, turn: Turn, env: Env)
    ensures Carries(Settle(d, turnId, turn, env), turn.toolCounts)
  {
  }

  lemma CarriedBalanced(out: Out<Option<Turn>>, counts: ToolCounts)
    requires Carries(out, counts) && Balanced(counts)
    ensures TurnBalanced(out.next) && ReportsBalanced(out.events)
  {
  }

  lemma SettleBalanced(d: Directory, turnId: string, turn: Turn, env: Env)
    requires Balanced(turn.toolCounts)
    ensures TurnBalanced(Settle(d, turnId, turn, env).next) && ReportsBalanced(Settle(d, turnId, turn, env).events)
  {
    SettleCarries(d, turnId, turn, env);
    CarriedBalanced(Settle(d, turnId, turn, env), turn.toolCounts);
  }

  lemma FilledKeepsCounts(turn: Turn, fact: Fact)
    requires IsTurnFact(fact)
    ensures FilledIn(turn, fact).toolCounts == turn.toolCounts
  {
  }

  lemma TurnStepCarries(d: Directory, turn: Option<Turn>, fact: Fact, env: Env, out: Out<Option<Turn>>)
    requires IsTurnFact(fact) && out == TurnStep(d, turn, fact, env)
    ensures Carries(out, OrElse(turn, NEW_TURN).toolCounts)
  {
    var before := OrElse(turn, NEW_TURN);
    FilledKeepsCounts(before, fact);
    if MayReport(fact) {
      SettleCarries(d, TurnIdOf(fact), FilledIn(before, fact), env);
    }
  }

  lemma TurnStepBalanced(d: Directory, turn: Option<Turn>, fact: Fact, env: Env, out: Out<Option<Turn>>)
    requires TurnBalanced(turn) && IsTurnFact(fact) && out == TurnStep(d, turn, fact, env)
    ensures TurnBalanced(out.next) && ReportsBalanced(out.events)
  {
    TurnStepCarries(d, turn, fact, env, out);
    CarriedBalanced(out, OrElse(turn, NEW_TURN).toolCounts);
  }

  lemma AnsweredBalanced(d: Directory, request: Request, turn: Option<Turn>, fact: Fact, env: Env, out: Out<Option<Turn>>)
    requires TurnBalanced(turn) && (fact.TurnStartAnswered? || fact.TurnSteerAnswered?)
    requires out == AnsweredStep(d, request, turn, fact, env)
    ensures TurnBalanced(out.next) && ReportsBalanced(out.events)
  {
    if fact.TurnStartAnswered? {
      SettleBalanced(d, fact.turnId, Claimed(turn, fact.connectionId, request), env);
    } else {
      assert out.next == Steered(turn);
      assert out.events == SteerEvents(d, fact.connectionId, request, Some(fact.turnId), None);
    }
  }

  lemma RequestStepBalanced(s: State, fact: Fact, env: Env, out: Out<State>)
    requires AllBalanced(s.turns) && IsRequestFact(fact) && out == RequestStep(s, fact, env)
    ensures AllBalanced(out.next.turns) && ReportsBalanced(out.events)
  {
    var answered := AnsweredTurn(s.requests, fact);
    if answered.Some? {
      var request, turn := s.requests[RequestKey(fact)], Get(s.turns, answered.value);
      var next := AnsweredStep(s.directory, request, turn, fact, env);
      AnsweredBalanced(s.directory, request, turn, fact, env, next);
      PutBalanced(s.turns, answered.value, next.next);
    }
  }

  lemma ItemStepBalanced(s: State, fact: Fact, out: Out<State>)
    requires AllBalanced(s.turns) && fact.ItemCompleted? && out == ItemStep(s, fact)
    ensures AllBalanced(out.next.turns) && ReportsBalanced(out.events)
  {
    if fact.turnId in s.turns && !fact.item.UntrackedItem? {
      assert Balanced(Recorded(s.turns[fact.turnId].toolCounts, fact.item));
    }
  }

  lemma TurnFactIs(s: State, input: Input, out: Out<State>, t: string, next: Out<Option<Turn>>)
    requires IsTurnFact(input.fact) && t == TurnIdOf(input.fact) && out == Step(s, input)
    requires next == TurnStep(s.directory, Get(s.turns, t), input.fact, input.env)
    ensures out.next.turns == Put(s.turns, t, next.next) && out.events == next.events
  {
  }

  lemma GetBalanced(turns: map<string, Turn>, t: string)
    requires AllBalanced(turns)
    ensures TurnBalanced(Get(turns, t))
  {
  }

  lemma TurnFactBalanced(s: State, input: Input, t: string, next: Out<Option<Turn>>)
    requires AllBalanced(s.turns) && IsTurnFact(input.fact)
    requires next == TurnStep(s.directory, Get(s.turns, t), input.fact, input.env)
    ensures AllBalanced(Put(s.turns, t, next.next)) && ReportsBalanced(next.events)
  {
    GetBalanced(s.turns, t);
    TurnStepBalanced(s.directory, Get(s.turns, t), input.fact, input.env, next);
    PutBalanced(s.turns, t, next.next);
  }

  lemma StepBalanced(s: State, input: Input, out: Out<State>)
    requires AllBalanced(s.turns) && out == Step(s, input)
    ensures AllBalanced(out.next.turns) && ReportsBalanced(out.events)
  {
    var fact := input.fact;
    if IsTurnFact(fact) {
      var t := TurnIdOf(fact);
      var next := TurnStep(s.directory, Get(s.turns, t), fact, input.env);
      TurnFactIs(s, input, out, t, next);
      TurnFactBalanced(s, input, t, next);
    } else if IsRequestFact(fact) {
      RequestStepBalanced(s, fact, input.env, out);
    } else if fact.ItemCompleted? {
      ItemStepBalanced(s, fact, out);
    } else {
      OthersReportNothing(s, input, out);
    }
  }

  lemma OthersReportNothing(s: State, input: Input, out: Out<State>)
    requires !IsTurnFact(input.fact) && !IsRequestFact(input.fact) && !input.fact.ItemCompleted? && out == Step(s, input)
    ensures out.next.turns == s.turns && ReportsBalanced(out.events)
  {
    if IsToolFact(input.fact) {
      assert ReportsBalanced(ToolStep(s.directory, s.tools, input.fact).events);
    }
  }

  /** In every turn event of every run the tool counts by kind add up to the total. */
  lemma {:induction false} ToolCountsAddUp(inputs: seq<Input>)
    ensures AllBalanced(Run(inputs).next.turns) && ReportsBalanced(Run(inputs).events)
  {
    if inputs != [] {
      ToolCountsAddUp(inputs[..|inputs| - 1]);
      var before, last := Run(inputs[..|inputs| - 1]).next, inputs[|inputs| - 1];
      StepBalanced(before, last, Step(before, last));
    }
  }
}
