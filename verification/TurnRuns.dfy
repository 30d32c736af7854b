/** Turn events over whole runs: facts about other turns do not matter, and a turn is reported no more
    often than each of its parts arrives. */
module TurnRuns {
  import opened Text
  import opened AnalyticsModel
  import opened Reducer

  // ----- the events of one turn -----

  predicate IsFor(e: Event, t: string) {
    (e.TurnEvent? && e.report.turnId == t) || (e.AcceptedLineEvent? && e.turnId == t)
  }

  function EventsFor(events: seq<Event>, t: string): seq<Event> {
    if events == [] then []
    else if IsFor(events[|events| - 1], t) then EventsFor(events[..|events| - 1], t) + [events[|events| - 1]]
    else EventsFor(events[..|events| - 1], t)
  }

  lemma {:induction false} EventsForJoin(a: seq<Event>, b: seq<Event>, t: string)
    ensures EventsFor(a + b, t) == EventsFor(a, t) + EventsFor(b, t)
  {
    if b == [] {
      assert a + b == a;
    } else {
      var k := |b| - 1;
      assert (a + b)[..|a| + k] == a + b[..k];
      EventsForJoin(a, b[..k], t);
    }
  }

  /** No event of the turn is among `events`. */
  ghost predicate Silent(events: seq<Event>, t: string) {
    forall i :: 0 <= i < |events| ==> !IsFor(events[i], t)
  }

  lemma {:induction false} SilentMeansNone(events: seq<Event>, t: string)
    requires Silent(events, t)
    ensures EventsFor(events, t) == []
  {
    if events != [] {
      SilentMeansNone(events[..|events| - 1], t);
    }
  }

  // ----- what a turn depends on -----

  /** Facts about connections, threads and requests, and facts that name the turn. */
  predicate Touches(fact: Fact, t: string) {
    || IsSetup(fact) || IsRequestFact(fact)
    || (IsTurnFact(fact) && TurnIdOf(fact) == t)
    || (fact.ItemCompleted? && fact.turnId == t)
  }

  ghost predicate SameView(s: State, s': State, t: string) {
    s.requests == s'.requests && s.directory == s'.directory && Get(s.turns, t) == Get(s'.turns, t)
  }

  lemma PutElsewhere(turns: map<string, Turn>, u: string, turn: Option<Turn>, t: string)
    ensures Get(Put(turns, u, turn), t) == if t == u then turn else Get(turns, t)
  {
  }

  lemma SettleNamesItsTurn(d: Directory, u: string, turn: Turn, env: Env, t: string, out: Out<Option<Turn>>)
    requires out == Settle(d, u, turn, env) && t != u
    ensures Silent(out.events, t)
  {
  }

  lemma TurnStepNamesItsTurn(d: Directory, turn: Option<Turn>, fact: Fact, env: Env, t: string, out: Out<Option<Turn>>)
    requires IsTurnFact(fact) && out == TurnStep(d, turn, fact, env) && t != TurnIdOf(fact)
    ensures Silent(out.events, t)
  {
    if MayReport(fact) {
      SettleNamesItsTurn(d, TurnIdOf(fact), FilledIn(OrElse(turn, NEW_TURN), fact), env, t, out);
    }
  }

  lemma AnsweredNamesItsTurn(d: Directory, request: Request, turn: Option<Turn>, fact: Fact, env: Env, t: string, out: Out<Option<Turn>>)
    requires fact.TurnStartAnswered? || fact.TurnSteerAnswered?
    requires out == AnsweredStep(d, request, turn, fact, env) && t != fact.turnId
    ensures Silent(out.events, t)
  {
    if fact.TurnStartAnswered? {
      SettleNamesItsTurn(d, fact.turnId, Claimed(turn, fact.connectionId, request), env, t, out);
    }
  }

  lemma ToolStepIsSilent(d: Directory, tools: Tools, fact: Fact, t: string, out: Out<Tools>)
    requires IsToolFact(fact) && out == ToolStep(d, tools, fact)
    ensures Silent(out.events, t)
  {
  }

  lemma ItemStepIsSilent(s: State, fact: Fact, t: string, out: Out<State>)
    requires fact.ItemCompleted? && out == ItemStep(s, fact)
    ensures Silent(out.events, t)
  {
  }

  /** A fact that does not touch the turn leaves its view as it was. */
  lemma OtherFactsLeaveView(s: State, input: Input, t: string, out: Out<State>)
    requires !Touches(input.fact, t) && out == Step(s, input)
    ensures SameView(out.next, s, t) && Silent(out.events, t)
  {
    var fact := input.fact;
    if IsTurnFact(fact) {
      var u := TurnIdOf(fact);
      var next := TurnStep(s.directory, Get(s.turns, u), fact, input.env);
      TurnStepNamesItsTurn(s.directory, Get(s.turns, u), fact, input.env, t, next);
      PutElsewhere(s.turns, u, next.next, t);
    } else if IsToolFact(fact) {
      ToolStepIsSilent(s.directory, s.tools, fact, t, ToolStep(s.directory, s.tools, fact));
    } else if fact.ItemCompleted? {
      ItemStepIsSilent(s, fact, t, out);
      PutElsewhere(s.turns, fact.turnId, CountedTool(Get(s.turns, fact.turnId), fact.item), t);
    }
  }

  lemma TurnFactsActOnView(s: State, s': State, input: Input, t: string, out: Out<State>, out': Out<State>)
    requires SameView(s, s', t) && IsTurnFact(input.fact) && TurnIdOf(input.fact) == t
    requires out == Step(s, input) && out' == Step(s', input)
    ensures SameView(out.next, out'.next, t) && out.events == out'.events
  {
    var next := TurnStep(s.directory, Get(s.turns, t), input.fact, input.env);
    PutElsewhere(s.turns, t, next.next, t);
    PutElsewhere(s'.turns, t, next.next, t);
  }

  lemma RequestFactsActOnView(s: State, s': State, fact: Fact, env: Env, t: string, out: Out<State>, out': Out<State>)
    requires SameView(s, s', t) && IsRequestFact(fact)
    requires out == RequestStep(s, fact, env) && out' == RequestStep(s', fact, env)
    ensures SameView(out.next, out'.next, t) && EventsFor(out.events, t) == EventsFor(out'.events, t)
  {
    var answered := AnsweredTurn(s.requests, fact);
    if answered.Some? {
      var u, request := answered.value, s.requests[RequestKey(fact)];
      var next := AnsweredStep(s.directory, request, Get(s.turns, u), fact, env);
      var next' := AnsweredStep(s'.directory, request, Get(s'.turns, u), fact, env);
      PutElsewhere(s.turns, u, next.next, t);
      PutElsewhere(s'.turns, u, next'.next, t);
      if u != t {
        AnsweredNamesItsTurn(s.directory, request, Get(s.turns, u), fact, env, t, next);
        AnsweredNamesItsTurn(s'.directory, request, Get(s'.turns, u), fact, env, t, next');
        SilentMeansNone(next.events, t);
        SilentMeansNone(next'.events, t);
      }
    }
  }

  lemma ItemsActOnView(s: State, s': State, fact: Fact, t: string, out: Out<State>, out': Out<State>)
    requires SameView(s, s', t) && fact.ItemCompleted? && fact.turnId == t
    requires out == ItemStep(s, fact) && out' == ItemStep(s', fact)
    ensures SameView(out.next, out'.next, t) && EventsFor(out.events, t) == EventsFor(out'.events, t)
  {
    ItemStepIsSilent(s, fact, t, out);
    ItemStepIsSilent(s', fact, t, out');
    SilentMeansNone(out.events, t);
    SilentMeansNone(out'.events, t);
    PutElsewhere(s.turns, t, CountedTool(Get(s.turns, t), fact.item), t);
    PutElsewhere(s'.turns, t, CountedTool(Get(s.turns, t), fact.item), t);
  }

  /** What a fact does to the turn depends on the view alone. */
  lemma StepActsOnView(s: State, s': State, input: Input, t: string, out: Out<State>, out': Out<State>)
    requires SameView(s, s', t) && Touches(input.fact, t)
    requires out == Step(s, input) && out' == Step(s', input)
    ensures SameView(out.next, out'.next, t) && EventsFor(out.events, t) == EventsFor(out'.events, t)
  {
    var fact := input.fact;
    if IsTurnFact(fact) {
      TurnFactsActOnView(s, s', input, t, out, out');
    } else if IsRequestFact(fact) {
      RequestFactsActOnView(s, s', fact, input.env, t, out, out');
    } else if fact.ItemCompleted? {
      ItemsActOnView(s, s', fact, t, out, out');
    }
  }

  function Touching(inputs: seq<Input>, t: string): seq<Input> {
    if inputs == [] then []
    else
      var front, last := inputs[..|inputs| - 1], inputs[|inputs| - 1];
      if Touches(last.fact, t) then Touching(front, t) + [last] else Touching(front, t)
  }

  lemma {:induction false} OnlyTouchingFactsMatter(inputs: seq<Input>, t: string)
    ensures SameView(Run(inputs).next, Run(Touching(inputs, t)).next, t)
    ensures EventsFor(Run(inputs).events, t) == EventsFor(Run(Touching(inputs, t)).events, t)
  {
    if inputs != [] {
      var front, last := inputs[..|inputs| - 1], inputs[|inputs| - 1];
      OnlyTouchingFactsMatter(front, t);
      var short := Touching(front, t);
      var before, before' := Run(front), Run(short);
      var out := Step(before.next, last);
      EventsForJoin(before.events, out.events, t);
      if Touches(last.fact, t) {
        var out' := Step(before'.next, last);
        StepActsOnView(before.next, before'.next, last, t, out, out');
        EventsForJoin(before'.events, out'.events, t);
        assert (short + [last])[..|short|] == short;
      } else {
        OtherFactsLeaveView(before.next, last, t, out);
        SilentMeansNone(out.events, t);
      }
    }
  }

  /** Runs that agree on the facts touching a turn put out the same events for it. */
  lemma NonInterference(a: seq<Input>, b: seq<Input>, t: string)
    requires Touching(a, t) == Touching(b, t)
    ensures EventsFor(Run(a).events, t) == EventsFor(Run(b).events, t)
  {
    OnlyTouchingFactsMatter(a, t);
    OnlyTouchingFactsMatter(b, t);
  }

  /** Notifications and custom turn facts that name another turn. */
  predicate NamesAnother(fact: Fact, t: string) {
    || (IsTurnFact(fact) && TurnIdOf(fact) != t)
    || ((fact.ItemStarted? || fact.ItemCompleted? || fact.GuardianReviewed?) && fact.turnId != t)
  }

  function WithoutOthers(inputs: seq<Input>, t: string): seq<Input> {
    if inputs == [] then []
    else
      var front, last := inputs[..|inputs| - 1], inputs[|inputs| - 1];
      if NamesAnother(last.fact, t) then WithoutOthers(front, t) else WithoutOthers(front, t) + [last]
  }

  lemma {:induction false} OthersTouchNothing(inputs: seq<Input>, t: string)
    ensures Touching(WithoutOthers(inputs, t), t) == Touching(inputs, t)
  {
    if inputs != [] {
      var front, last := inputs[..|inputs| - 1], inputs[|inputs| - 1];
      OthersTouchNothing(front, t);
      var kept := WithoutOthers(front, t);
      if !NamesAnother(last.fact, t) {
        assert (kept + [last])[..|kept|] == kept;
      }
    }
  }

  /** Deleting every notification and custom turn fact that names another turn changes nothing. */
  lemma OtherTurnsDoNotInterfere(inputs: seq<Input>, t: string)
    ensures EventsFor(Run(WithoutOthers(inputs, t)).events, t) == EventsFor(Run(inputs).events, t)
  {
    OthersTouchNothing(inputs, t);
    NonInterference(WithoutOthers(inputs, t), inputs, t);
  }

  // ----- emission bound -----

  /** The three parts of a turn that arrive as facts of their own. */
  datatype Part = ConfigPart | ProfilePart | CompletionPart

  predicate Has(turn: Option<Turn>, part: Part) {
    turn.Some? &&
    match part
    case ConfigPart => turn.value.config.Some?
    case ProfilePart => turn.value.profile.Some?
    case CompletionPart => turn.value.completed.Some?
  }

  predicate Supplies(fact: Fact, part: Part, t: string) {
    match part
    case ConfigPart => fact.TurnConfigured? && fact.config.turnId == t
    case ProfilePart => fact.TurnProfiled? && fact.turnId == t
    case CompletionPart => fact.TurnCompleted? && fact.turnId == t
  }

  function One(b: bool): nat {
    if b then 1 else 0
  }

  function Reports(events: seq<Event>, t: string): nat {
    if events == [] then 0
    else Reports(events[..|events| - 1], t) + One(events[|events| - 1].TurnEvent? && events[|events| - 1].report.turnId == t)
  }

  function Supplied(inputs: seq<Input>, part: Part, t: string): nat {
    if inputs == [] then 0
    else Supplied(inputs[..|inputs| - 1], part, t) + One(Supplies(inputs[|inputs| - 1].fact, part, t))
  }

  lemma {:induction false} ReportsJoin(a: seq<Event>, b: seq<Event>, t: string)
    ensures Reports(a + b, t) == Reports(a, t) + Reports(b, t)
  {
    if b == [] {
      assert a + b == a;
    } else {
      var k := |b| - 1;
      assert (a + b)[..|a| + k] == a + b[..k];
      ReportsJoin(a, b[..k], t);
    }
  }

  lemma {:induction false} SilentReports(events: seq<Event>, t: string)
    requires Silent(events, t)
    ensures Reports(events, t) == 0
  {
    if events != [] {
      SilentReports(events[..|events| - 1], t);
    }
  }

  /** A report uses up one of each part. */
  lemma SettleSpends(d: Directory, t: string, turn: Turn, env: Env, part: Part, out: Out<Option<Turn>>)
    requires out == Settle(d, t, turn, env)
    ensures Reports(out.events, t) + One(Has(out.next, part)) <= One(Has(Some(turn), part))
  {
    if Reportable(d, turn) {
      var report := [TurnEvent(Report(t, turn, TurnContext(d, turn).value))];
      var lines := AcceptedLineEvents(t, turn, env);
      ReportsJoin(report, lines, t);
      assert report[..0] == [];
      assert Reports(lines, t) == 0 by {
        assert |lines| <= 1;
        if |lines| == 1 {
          assert lines[..0] == [];
        }
      }
    }
  }

  lemma FilledHas(turn: Option<Turn>, fact: Fact, part: Part)
    requires IsTurnFact(fact)
    ensures One(Has(Some(FilledIn(OrElse(turn, NEW_TURN), fact)), part)) <= One(Has(turn, part)) + One(Supplies(fact, part, TurnIdOf(fact)))
  {
  }

  lemma TurnStepSpends(d: Directory, turn: Option<Turn>, fact: Fact, env: Env, part: Part, out: Out<Option<Turn>>)
    requires IsTurnFact(fact) && out == TurnStep(d, turn, fact, env)
    ensures Reports(out.events, TurnIdOf(fact)) + One(Has(out.next, part)) <=
      One(Has(turn, part)) + One(Supplies(fact, part, TurnIdOf(fact)))
  {
    var filled := FilledIn(OrElse(turn, NEW_TURN), fact);
    FilledHas(turn, fact, part);
    if MayReport(fact) {
      SettleSpends(d, TurnIdOf(fact), filled, env, part, out);
    }
  }

  lemma RequestStepSpends(s: State, fact: Fact, env: Env, part: Part, t: string, out: Out<State>)
    requires IsRequestFact(fact) && out == RequestStep(s, fact, env)
    ensures Reports(out.events, t) + One(Has(Get(out.next.turns, t), part)) <= One(Has(Get(s.turns, t), part))
  {
    var answered := AnsweredTurn(s.requests, fact);
    if answered.Some? {
      var u, request := answered.value, s.requests[RequestKey(fact)];
      var turn := Get(s.turns, u);
      var next := AnsweredStep(s.directory, request, turn, fact, env);
      PutElsewhere(s.turns, u, next.next, t);
      if u != t {
        AnsweredNamesItsTurn(s.directory, request, turn, fact, env, t, next);
        SilentReports(next.events, t);
      } else if fact.TurnStartAnswered? {
        SettleSpends(s.directory, t, Claimed(turn, fact.connectionId, request), env, part, next);
      } else {
        SteeringIsSilent(s.directory, fact.connectionId, request, Some(t), None, t);
      }
    } else if fact.RequestFailed? && RequestKey(fact) in s.requests {
      SteeringIsSilent(s.directory, fact.connectionId, s.requests[RequestKey(fact)], None, fact.reason, t);
    }
  }

  lemma SteeringIsSilent(d: Directory, connectionId: nat, request: Request, accepted: Option<string>, reason: Option<Payload>, t: string)
    ensures Reports(SteerEvents(d, connectionId, request, accepted, reason), t) == 0
  {
    var events := SteerEvents(d, connectionId, request, accepted, reason);
    SilentReports(events, t);
  }

  lemma ItemStepSpends(s: State, fact: Fact, part: Part, t: string, out: Out<State>)
    requires fact.ItemCompleted? && out == ItemStep(s, fact)
    ensures Reports(out.events, t) + One(Has(Get(out.next.turns, t), part)) <= One(Has(Get(s.turns, t), part))
  {
    ItemStepIsSilent(s, fact, t, out);
    SilentReports(out.events, t);
    PutElsewhere(s.turns, fact.turnId, CountedTool(Get(s.turns, fact.turnId), fact.item), t);
  }

  lemma StepSpends(s: State, input: Input, part: Part, t: string, out: Out<State>)
    requires out == Step(s, input)
    ensures Reports(out.events, t) + One(Has(Get(out.next.turns, t), part)) <=
      One(Has(Get(s.turns, t), part)) + One(Supplies(input.fact, part, t))
  {
    var fact := input.fact;
    if !Touches(fact, t) {
      OtherFactsLeaveView(s, input, t, out);
      SilentReports(out.events, t);
    } else if IsTurnFact(fact) {
      var next := TurnStep(s.directory, Get(s.turns, t), fact, input.env);
      TurnStepSpends(s.directory, Get(s.turns, t), fact, input.env, part, next);
      PutElsewhere(s.turns, t, next.next, t);
    } else if IsRequestFact(fact) {
      RequestStepSpends(s, fact, input.env, part, t, out);
    } else if fact.ItemCompleted? {
      ItemStepSpends(s, fact, part, t, out);
    } else {
      SetupIsSilent(s.directory, fact, t);
    }
  }

  lemma SetupIsSilent(d: Directory, fact: Fact, t: string)
    requires IsSetup(fact)
    ensures Reports(SetupStep(d, fact).events, t) == 0
  {
    SilentReports(SetupStep(d, fact).events, t);
  }

  /** A turn is reported at most as often as each of its parts was supplied, and once less while the
      part is still held. */
  lemma {:induction false} EmissionBound(inputs: seq<Input>, part: Part, t: string)
    ensures Reports(Run(inputs).events, t) + One(Has(Get(Run(inputs).next.turns, t), part)) <= Supplied(inputs, part, t)
  {
    if inputs != [] {
      var front, last := inputs[..|inputs| - 1], inputs[|inputs| - 1];
      EmissionBound(front, part, t);
      var before := Run(front);
      var out := Step(before.next, last);
      StepSpends(before.next, last, part, t, out);
      ReportsJoin(before.events, out.events, t);
    }
  }
}
