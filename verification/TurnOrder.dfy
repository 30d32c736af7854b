/** Order independence: the configuration, the profile and the completion of a turn give the same
    single report in whichever order they arrive. */
module TurnOrder {
  import opened Text
  import opened AnalyticsModel
  import opened Reducer
  import opened TurnRuns

  /** The turn's thread as the directory knows it. */
  datatype Home = Home(threadId: string, connectionId: nat, connection: Connection, metadata: Metadata)

  predicate Known(d: Directory, home: Home) {
    && Get(d.threads, home.threadId) == Some(Thread(Some(home.connectionId), Some(home.metadata)))
    && Get(d.connections, home.connectionId) == Some(home.connection)
  }

  /** Facts that neither name the turn nor replace its thread or connection. */
  predicate Quiet(fact: Fact, t: string, home: Home) {
    && !(IsTurnFact(fact) && TurnIdOf(fact) == t)
    && !((fact.ItemCompleted? || fact.TurnStartAnswered? || fact.TurnSteerAnswered?) && fact.turnId == t)
    && !(fact.Initialized? && fact.connectionId == home.connectionId)
    && !(fact.ThreadOpened? && fact.thread.id == home.threadId)
  }

  function Loud(inputs: seq<Input>, t: string, home: Home): seq<Fact> {
    if inputs == [] then []
    else
      var front, last := inputs[..|inputs| - 1], inputs[|inputs| - 1].fact;
      if Quiet(last, t, home) then Loud(front, t, home) else Loud(front, t, home) + [last]
  }

  lemma QuietSetup(d: Directory, fact: Fact, t: string, home: Home, out: Out<Directory>)
    requires Known(d, home) && IsSetup(fact) && Quiet(fact, t, home) && out == SetupStep(d, fact)
    ensures Known(out.next, home) && Silent(out.events, t)
  {
  }

  lemma QuietRequest(s: State, fact: Fact, env: Env, t: string, home: Home, out: Out<State>)
    requires IsRequestFact(fact) && Quiet(fact, t, home) && out == RequestStep(s, fact, env)
    ensures out.next.directory == s.directory && Get(out.next.turns, t) == Get(s.turns, t) && Silent(out.events, t)
  {
    var answered := AnsweredTurn(s.requests, fact);
    if answered.Some? {
      var u, request := answered.value, s.requests[RequestKey(fact)];
      var next := AnsweredStep(s.directory, request, Get(s.turns, u), fact, env);
      AnsweredNamesItsTurn(s.directory, request, Get(s.turns, u), fact, env, t, next);
      PutElsewhere(s.turns, u, next.next, t);
    }
  }

  lemma QuietStep(s: State, input: Input, t: string, home: Home, out: Out<State>)
    requires Known(s.directory, home) && Quiet(input.fact, t, home) && out == Step(s, input)
    ensures Known(out.next.directory, home) && Get(out.next.turns, t) == Get(s.turns, t) && Silent(out.events, t)
  {
    var fact := input.fact;
    if IsSetup(fact) {
      QuietSetup(s.directory, fact, t, home, SetupStep(s.directory, fact));
    } else if IsRequestFact(fact) {
      QuietRequest(s, fact, input.env, t, home, out);
    } else {
      OtherFactsLeaveView(s, input, t, out);
    }
  }

  // ----- the three facts -----

  datatype Trio = Trio(config: TurnConfig, profile: Payload, completion: Fact)

  ghost predicate Valid(trio: Trio, t: string, home: Home) {
    && trio.config.turnId == t && trio.config.threadId == home.threadId
    && trio.completion.TurnCompleted? && trio.completion.turnId == t
  }

  function Facts(trio: Trio, t: string): multiset<Fact> {
    multiset{TurnConfigured(trio.config), TurnProfiled(t, trio.profile), trio.completion}
  }

  /** The turn once the facts in `seen` have arrived. */
  function Gathered(trio: Trio, t: string, seen: seq<Fact>): Option<Turn>
    requires trio.completion.TurnCompleted?
  {
    var c := TurnConfigured(trio.config) in seen;
    var p := TurnProfiled(t, trio.profile) in seen;
    var d := trio.completion in seen;
    if (c && p && d) || (!c && !p && !d) then None
    else
      Some(NEW_TURN.(
        threadId := if c then Some(trio.config.threadId) else None,
        images := if c then Some(trio.config.images) else None,
        config := if c then Some(trio.config) else None,
        profile := if p then Some(trio.profile) else None,
        completed := if d then FilledIn(NEW_TURN, trio.completion).completed else None))
  }

  predicate AllSeen(trio: Trio, t: string, seen: seq<Fact>) {
    TurnConfigured(trio.config) in seen && TurnProfiled(t, trio.profile) in seen && trio.completion in seen
  }

  /** The one event: nothing of it depends on the order. */
  function TheReport(trio: Trio, t: string, home: Home): Event
    requires trio.completion.TurnCompleted?
  {
    TurnEvent(TurnReport(t, home.threadId, home.connection, home.metadata, trio.config, trio.config.images, trio.profile,
      FilledIn(NEW_TURN, trio.completion).completed.value, None, None, None, 0, NO_TOOLS))
  }

  lemma LoudStep(d: Directory, trio: Trio, t: string, home: Home, seen: seq<Fact>, fact: Fact, env: Env, out: Out<Option<Turn>>)
    requires Known(d, home) && Valid(trio, t, home)
    requires fact in Facts(trio, t) && fact !in seen
    requires out == TurnStep(d, Gathered(trio, t, seen), fact, env)
    ensures out.next == Gathered(trio, t, seen + [fact])
    ensures out.events == if AllSeen(trio, t, seen + [fact]) then [TheReport(trio, t, home)] else []
  {
    var filled := FilledIn(OrElse(Gathered(trio, t, seen), NEW_TURN), fact);
    if AllSeen(trio, t, seen + [fact]) {
      assert Ready(filled) && TurnContext(d, filled) == Some(Context(home.connection, home.metadata));
    } else {
      assert !Ready(filled);
    }
  }

  lemma LoudIsFresh(seen: seq<Fact>, fact: Fact, trio: Trio, t: string)
    requires trio.completion.TurnCompleted?
    requires multiset(seen + [fact]) <= Facts(trio, t)
    ensures fact in Facts(trio, t) && fact !in seen && multiset(seen) <= Facts(trio, t)
  {
    assert multiset(seen + [fact]) == multiset(seen) + multiset{fact};
    assert Facts(trio, t)[fact] <= 1;
    assert multiset(seen)[fact] == 0;
  }

  lemma {:induction false} PartialRun(s: State, inputs: seq<Input>, trio: Trio, t: string, home: Home)
    requires Known(s.directory, home) && t !in s.turns && Valid(trio, t, home)
    requires multiset(Loud(inputs, t, home)) <= Facts(trio, t)
    ensures var run, seen := RunFrom(s, inputs), Loud(inputs, t, home);
      && Known(run.next.directory, home)
      && Get(run.next.turns, t) == Gathered(trio, t, seen)
      && EventsFor(run.events, t) == if AllSeen(trio, t, seen) then [TheReport(trio, t, home)] else []
  {
    if inputs != [] {
      var front, last := inputs[..|inputs| - 1], inputs[|inputs| - 1];
      var seen := Loud(front, t, home);
      var before := RunFrom(s, front);
      var out := Step(before.next, last);
      if Quiet(last.fact, t, home) {
        PartialRun(s, front, trio, t, home);
        QuietStep(before.next, last, t, home, out);
        SilentMeansNone(out.events, t);
      } else {
        LoudIsFresh(seen, last.fact, trio, t);
        PartialRun(s, front, trio, t, home);
        var next := TurnStep(before.next.directory, Gathered(trio, t, seen), last.fact, last.env);
        LoudStep(before.next.directory, trio, t, home, seen, last.fact, last.env, next);
        PutElsewhere(before.next.turns, t, next.next, t);
        OneEvent(TheReport(trio, t, home), t);
      }
      EventsForJoin(before.events, out.events, t);
    }
  }

  lemma OneEvent(e: Event, t: string)
    requires IsFor(e, t)
    ensures EventsFor([e], t) == [e]
  {
    assert [e][..0] == [];
  }

  lemma {:induction false} PrefixIsQuieter(inputs: seq<Input>, k: nat, t: string, home: Home)
    requires k <= |inputs|
    ensures Loud(inputs[..k], t, home) <= Loud(inputs, t, home)
  {
    if k == |inputs| {
      assert inputs[..k] == inputs;
    } else {
      PrefixIsQuieter(inputs[..|inputs| - 1], k, t, home);
      assert inputs[..|inputs| - 1][..k] == inputs[..k];
    }
  }

  lemma AllThreeSeen(seen: seq<Fact>, trio: Trio, t: string)
    requires trio.completion.TurnCompleted? && multiset(seen) <= Facts(trio, t)
    ensures AllSeen(trio, t, seen) <==> |seen| == 3
  {
    var m := multiset(seen);
    assert |m| == |seen|;
    if AllSeen(trio, t, seen) {
      assert m == Facts(trio, t);
    }
    if |seen| == 3 {
      assert |Facts(trio, t) - m| == 0;
      assert m == Facts(trio, t);
    }
  }

  /** On a thread already known and with no earlier state for the turn, the three facts in any of
      their six orders, among facts that do not concern the turn, give exactly one event of the
      turn. It comes at the third of them and is the same in every order. */
  lemma AnyOrderReportsOnce(s: State, inputs: seq<Input>, k: nat, trio: Trio, t: string, home: Home)
    requires Known(s.directory, home) && t !in s.turns && Valid(trio, t, home)
    requires multiset(Loud(inputs, t, home)) == Facts(trio, t) && k <= |inputs|
    ensures EventsFor(RunFrom(s, inputs[..k]).events, t) ==
      if |Loud(inputs[..k], t, home)| == 3 then [TheReport(trio, t, home)] else []
    ensures |Loud(inputs, t, home)| == 3
  {
    var seen, all := Loud(inputs[..k], t, home), Loud(inputs, t, home);
    PrefixIsQuieter(inputs, k, t, home);
    assert all == seen + all[|seen|..];
    assert multiset(all) == multiset(seen) + multiset(all[|seen|..]);
    PartialRun(s, inputs[..k], trio, t, home);
    AllThreeSeen(seen, trio, t);
    assert |multiset(all)| == |all|;
  }
}
