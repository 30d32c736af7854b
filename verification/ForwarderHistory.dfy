/** The forwarder against a bare log: what was taken, and the fate of every event in order. How full the channel
    is, how many drops are still to be announced and whether a forward is under way all follow from the log. */
module ForwarderHistory {
  import opened Forwarder
  import opened LagAccounting

  /** The notifications that survive backpressure, kind by kind. */
  predicate Lossless(e: Event) {
    e.Notification? && e.kind in {
      Kind.TurnCompleted, Kind.ThreadSettingsUpdated, Kind.ItemCompleted, Kind.ExternalAgentConfigImportCompleted,
      Kind.AgentMessageDelta, Kind.PlanDelta, Kind.ReasoningSummaryTextDelta, Kind.ReasoningTextDelta}
  }

  lemma DeliveryByKind(e: Event)
    ensures RequiresDelivery(e) <==> Lossless(e)
  {
  }

  datatype Fate = Marker(count: nat) | Delivered(index: nat) | Lost(index: nat)

  /** `read` counts the events the consumer took. */
  datatype Record = Record(input: seq<Event>, log: seq<Fate>, read: nat, refused: seq<string>, over: bool)

  /** What the log put into the channel. */
  function SentIn(log: seq<Fate>): seq<Entry> {
    if log == [] then []
    else
      var last := log[|log| - 1];
      SentIn(log[..|log| - 1]) +
        (match last
         case Marker(count) => [Own(count)]
         case Delivered(i) => [Passed(i)]
         case Lost(_) => [])
  }

  /** The drops since the last marker. */
  function Unannounced(log: seq<Fate>): nat {
    if log == [] then 0
    else
      match log[|log| - 1]
      case Marker(_) => 0
      case Delivered(_) => Unannounced(log[..|log| - 1])
      case Lost(_) => Unannounced(log[..|log| - 1]) + 1
  }

  /** The last event taken has no fate yet. */
  predicate UnderWay(r: Record) {
    !r.over && r.input != [] && Delivered(|r.input| - 1) !in r.log && Lost(|r.input| - 1) !in r.log
  }

  predicate Full(capacity: nat, r: Record) {
    |SentIn(r.log)| >= r.read + (if capacity == 0 then 1 else capacity)
  }

  function Capped(n: nat): nat {
    if n < 0xFFFF_FFFF_FFFF_FFFF then n else 0xFFFF_FFFF_FFFF_FFFF
  }

  /** A full channel holds up a lossless event and loses any other; with room, drops are announced before the
      event goes out. */
  function Fated(capacity: nat, r: Record): seq<Fate>
    requires r.input != []
  {
    var i := |r.input| - 1;
    if Full(capacity, r) then (if Lossless(r.input[i]) then [] else [Lost(i)])
    else if Unannounced(r.log) > 0 then [Marker(Capped(Unannounced(r.log)))]
    else [Delivered(i)]
  }

  /** What one action adds to the record. */
  function Noted(capacity: nat, r: Record, closed: bool, a: Action): Record {
    match a
    case Next(event) =>
      if r.over || UnderWay(r) then r
      else if event.ServerRequest? && event.authTokensRefresh then r.(refused := r.refused + [event.id])
      else r.(input := r.input + [event])
    case Proceed =>
      if !UnderWay(r) then r
      else if closed then r.(over := true)
      else r.(log := r.log + Fated(capacity, r))
    case Receive => if !closed && r.read < |SentIn(r.log)| then r.(read := r.read + 1) else r
    case Close => r
  }

  /** The record of a run, from its actions. */
  function RecordIn(capacity: nat, actions: seq<Action>): Record {
    if actions == [] then Record([], [], 0, [], false)
    else
      var front := actions[..|actions| - 1];
      Noted(capacity, RecordIn(capacity, front), Close in front, actions[|actions| - 1])
  }

  // ----- one step -----

  ghost predicate Logged(w: Worker, r: Record) {
    && w.input == r.input && w.sent == SentIn(r.log) && w.refused == r.refused && w.enabled == !r.over
    && (forall i: nat :: Lost(i) in r.log <==> i in w.dropped)
    && (forall i: nat :: Delivered(i) in r.log <==> Passed(i) in w.sent)
  }

  ghost predicate InStep(capacity: nat, w: Worker, r: Record) {
    && Logged(w, r)
    && w.capacity == (if capacity == 0 then 1 else capacity)
    && w.skipped == Capped(Unannounced(r.log))
    && (w.phase != Idle <==> UnderWay(r))
    && |w.received| == r.read && (w.open ==> |w.sent| == r.read + |w.buffer|)
  }

  lemma FateAdded(log: seq<Fate>, fate: Fate, longer: seq<Fate>)
    requires longer == log + [fate]
    ensures SentIn(longer) == SentIn(log) + (if fate.Lost? then [] else [if fate.Marker? then Own(fate.count) else Passed(fate.index)])
    ensures Unannounced(longer) == if fate.Marker? then 0 else if fate.Lost? then Unannounced(log) + 1 else Unannounced(log)
    ensures forall x :: x in longer <==> x in log || x == fate
  {
    assert longer[..|log|] == log;
  }

  lemma LogGrows(w: Worker, r: Record, fate: Fate, w': Worker, r': Record)
    requires Logged(w, r) && r' == r.(log := r.log + [fate]) && w'.input == w.input && w'.refused == w.refused && w'.enabled == w.enabled
    requires match fate
      case Marker(count) => w'.sent == w.sent + [Own(count)] && w'.dropped == w.dropped
      case Delivered(i) => w'.sent == w.sent + [Passed(i)] && w'.dropped == w.dropped
      case Lost(i) => w'.sent == w.sent && w'.dropped == w.dropped + {i}
    ensures Logged(w', r')
  {
    FateAdded(r.log, fate, r'.log);
    var sent := w'.sent;
    assert fate.Lost? || sent[..|w.sent|] == w.sent;
    forall i: nat ensures Passed(i) in sent <==> Passed(i) in w.sent || fate == Delivered(i) {
    }
  }

  lemma LossInStep(capacity: nat, w: Worker, r: Record, w': Worker, r': Record)
    requires InStep(capacity, w, r) && Control(w) && w.phase != Idle && w.open && !Room(w) && !RequiresDelivery(w.input[Last(w)])
    requires w' == Forward(w) && r' == r.(log := r.log + [Lost(Last(w))])
    ensures InStep(capacity, w', r')
  {
    LogGrows(w, r, Lost(Last(w)), w', r');
    FateAdded(r.log, Lost(Last(w)), r'.log);
  }

  lemma MarkerInStep(capacity: nat, w: Worker, r: Record, w': Worker, r': Record)
    requires InStep(capacity, w, r) && Control(w) && w.phase.AtMarker? && w.open && Room(w)
    requires w' == Forward(w) && r' == r.(log := r.log + [Marker(w.skipped)])
    ensures InStep(capacity, w', r')
  {
    LogGrows(w, r, Marker(w.skipped), w', r');
    FateAdded(r.log, Marker(w.skipped), r'.log);
  }

  lemma DeliveryInStep(capacity: nat, w: Worker, r: Record, w': Worker, r': Record)
    requires InStep(capacity, w, r) && Control(w) && w.phase.AtEvent? && w.open && Room(w)
    requires w' == Forward(w) && r' == r.(log := r.log + [Delivered(Last(w))])
    ensures InStep(capacity, w', r')
  {
    LogGrows(w, r, Delivered(Last(w)), w', r');
    FateAdded(r.log, Delivered(Last(w)), r'.log);
  }

  /** What the log says comes next is what the worker does. */
  lemma FateIs(capacity: nat, w: Worker, r: Record)
    requires InStep(capacity, w, r) && Control(w) && w.phase != Idle && w.open
    ensures Fated(capacity, r) ==
      if !Room(w) then (if RequiresDelivery(w.input[Last(w)]) then [] else [Lost(Last(w))])
      else if w.phase.AtMarker? then [Marker(w.skipped)]
      else [Delivered(Last(w))]
  {
    DeliveryByKind(w.input[Last(w)]);
  }

  lemma ForwardInStep(capacity: nat, w: Worker, r: Record, w': Worker, r': Record, fates: seq<Fate>)
    requires InStep(capacity, w, r) && Control(w) && w.phase != Idle && w.open && fates == Fated(capacity, r)
    requires w' == Forward(w) && r' == r.(log := r.log + fates)
    ensures InStep(capacity, w', r')
  {
    FateIs(capacity, w, r);
    if fates == [] {
      assert r.log + fates == r.log;
    } else if !Room(w) {
      LossInStep(capacity, w, r, w', r');
    } else if w.phase.AtMarker? {
      MarkerInStep(capacity, w, r, w', r');
    } else {
      DeliveryInStep(capacity, w, r, w', r');
    }
  }

  lemma TakeInStep(capacity: nat, w: Worker, r: Record, event: Event, w': Worker, r': Record)
    requires InStep(capacity, w, r) && Control(w) && Fates(w) && w.phase == Idle && w.enabled && w' == Take(w, event)
    requires r' == if event.ServerRequest? && event.authTokensRefresh then r.(refused := r.refused + [event.id]) else r.(input := r.input + [event])
    ensures InStep(capacity, w', r')
  {
  }

  lemma ReceiveInStep(capacity: nat, w: Worker, r: Record)
    requires InStep(capacity, w, r)
    ensures InStep(capacity, Step(w, Receive), Noted(capacity, r, !w.open, Receive))
    ensures InStep(capacity, Step(w, Close), r)
  {
  }

  lemma StepInStep(capacity: nat, w: Worker, r: Record, a: Action, r': Record)
    requires InStep(capacity, w, r) && Control(w) && Fates(w) && r' == Noted(capacity, r, !w.open, a)
    ensures InStep(capacity, Step(w, a), r')
  {
    match a
    case Next(event) =>
      if w.phase == Idle && w.enabled {
        TakeInStep(capacity, w, r, event, Take(w, event), r');
      }
    case Proceed =>
      if w.phase != Idle && w.open {
        ForwardInStep(capacity, w, r, Forward(w), r', Fated(capacity, r));
      }
    case Receive => ReceiveInStep(capacity, w, r);
    case Close => ReceiveInStep(capacity, w, r);
  }

  lemma OnlyClosingCloses(w: Worker, a: Action)
    ensures Step(w, a).open == (w.open && !a.Close?)
  {
  }

  lemma {:induction false} OpenUntilClosed(capacity: nat, actions: seq<Action>)
    ensures Run(capacity, actions).open == (Close !in actions)
  {
    if actions != [] {
      var front, last := actions[..|actions| - 1], actions[|actions| - 1];
      OpenUntilClosed(capacity, front);
      OnlyClosingCloses(Run(capacity, front), last);
      assert actions == front + [last];
    }
  }

  // ----- whole runs -----

  lemma {:induction false} RunInStep(capacity: nat, actions: seq<Action>)
    ensures InStep(capacity, Run(capacity, actions), RecordIn(capacity, actions))
  {
    if actions != [] {
      var k := |actions| - 1;
      RunInStep(capacity, actions[..k]);
      RunControl(capacity, actions[..k]);
      OpenUntilClosed(capacity, actions[..k]);
      StepInStep(capacity, Run(capacity, actions[..k]), RecordIn(capacity, actions[..k]), actions[k], RecordIn(capacity, actions));
    }
  }

  /** In every run: the channel was sent what the log says, the events lost are those of the log, each lost server
      request and no other was rejected, token refreshes were refused in order, and the consumer has what the
      channel was sent, as far as it read. */
  lemma RunsAreRecords(capacity: nat, actions: seq<Action>)
    ensures var w, r := Run(capacity, actions), RecordIn(capacity, actions);
      && w.input == r.input && w.sent == SentIn(r.log) && w.refused == r.refused && w.enabled == !r.over
      && (forall i: nat :: i in w.dropped <==> Lost(i) in r.log)
      && (forall i: nat :: i in w.rejected <==> Lost(i) in r.log && i < |w.input| && w.input[i].ServerRequest?)
      && r.read <= |Contents(w.sent, w.input)| && w.received == Contents(w.sent, w.input)[..r.read]
  {
    RunInStep(capacity, actions);
    RunControl(capacity, actions);
  }

  /** The same of every task, whatever happened to it. */
  lemma TasksAreRecords(task: ForwarderTask)
    requires task.Valid()
    ensures var r := RecordIn(task.requested, task.history);
      && task.input == r.input && task.sent == SentIn(r.log) && task.refused == r.refused
      && (forall i: nat :: i in task.dropped <==> Lost(i) in r.log)
  {
    RunsAreRecords(task.requested, task.history);
  }
}
