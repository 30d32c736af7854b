/** The in-process event forwarder: a bounded channel with a lossless and a best-effort tier,
    a skip counter and lag markers (codex-rs/app-server-client/src/lib.rs:139-262, 483-590). */
module Forwarder {

  /** Notification kinds, the lossless tier by name. */
  datatype Kind =
    | TurnCompleted
    | ThreadSettingsUpdated
    | ItemCompleted
    | ExternalAgentConfigImportCompleted
    | AgentMessageDelta
    | PlanDelta
    | ReasoningSummaryTextDelta
    | ReasoningTextDelta
    | BestEffort(name: string)

  /** What the runtime hands to the worker, and what the consumer receives. */
  datatype Event =
    | Lagged(skipped: nat)
    | Notification(kind: Kind, payload: string)
    | ServerRequest(id: string, authTokensRefresh: bool)

  /** `event_requires_delivery` */
  predicate RequiresDelivery(e: Event) {
    e.Notification? && !e.kind.BestEffort?
  }

  const USIZE_MAX: nat := 0xFFFF_FFFF_FFFF_FFFF

  function SaturatingIncrement(n: nat): nat {
    if n >= USIZE_MAX then USIZE_MAX else n + 1
  }

  /** What the forwarder put into the channel: a marker of its own making, or the input event
      at some index. Upstream `Lagged` events arrive as input and are `Passed` like any other. */
  datatype Entry = Own(count: nat) | Passed(index: nat)

  /** Where the forward of the last input event stands. Each step does one channel operation, so
      the consumer can act between any two. */
  datatype Phase = Idle | AtMarker | AtEvent

  /** The worker, its channel and the record of the run. `received` is what the consumer took,
      `refused` the token refresh requests answered without forwarding. */
  datatype Worker = Worker(
    capacity: nat, buffer: seq<Event>, open: bool,
    skipped: nat, enabled: bool, phase: Phase,
    input: seq<Event>, sent: seq<Entry>, dropped: set<nat>, rejected: set<nat>,
    received: seq<Event>, refused: seq<string>, afterClose: nat)

  /** `channel_capacity` is clamped to at least one. */
  function Init(capacity: nat): Worker {
    Worker(if capacity == 0 then 1 else capacity, [], true, 0, true, Idle, [], [], {}, {}, [], [], 0)
  }

  datatype Action = Next(event: Event) | Proceed | Receive | Close

  // ----- channel operations -----

  predicate Room(w: Worker) {
    |w.buffer| < w.capacity
  }

  function Push(w: Worker, e: Event, entry: Entry): Worker {
    w.(buffer := w.buffer + [e], sent := w.sent + [entry])
  }

  function Last(w: Worker): nat
    requires w.input != []
  {
    |w.input| - 1
  }

  /** The queue is full: count the drop, and answer a dropped server request. */
  function Drop(w: Worker): Worker
    requires w.input != []
  {
    w.(skipped := SaturatingIncrement(w.skipped),
       dropped := w.dropped + {Last(w)},
       rejected := if w.input[Last(w)].ServerRequest? then w.rejected + {Last(w)} else w.rejected,
       phase := Idle)
  }

  /** `ForwardEventResult::DisableStream` */
  function Disable(w: Worker): Worker {
    w.(enabled := false, phase := Idle)
  }

  /** One channel operation of `forward_in_process_event`. A lossless send on a full queue waits. */
  function Forward(w: Worker): Worker
    requires w.input != [] && w.phase != Idle
  {
    var event := w.input[Last(w)];
    if !w.open then Disable(w)
    else if !Room(w) then (if RequiresDelivery(event) then w else Drop(w))
    else if w.phase.AtMarker? then Push(w, Lagged(w.skipped), Own(w.skipped)).(skipped := 0, phase := AtEvent)
    else Push(w, event, Passed(Last(w))).(phase := Idle)
  }

  /** The worker takes an event: token refresh requests are refused on the spot. */
  function Take(w: Worker, event: Event): Worker {
    if event.ServerRequest? && event.authTokensRefresh then w.(refused := w.refused + [event.id])
    else
      w.(input := w.input + [event],
         phase := if w.skipped > 0 then AtMarker else AtEvent,
         afterClose := if w.open then w.afterClose else w.afterClose + 1)
  }

  /** An action that cannot happen in a state changes nothing. */
  function Step(w: Worker, a: Action): Worker {
    match a
    case Next(event) => if w.enabled && w.phase == Idle then Take(w, event) else w
    case Proceed => if w.phase != Idle && w.input != [] then Forward(w) else w
    case Receive =>
      if w.open && w.buffer != [] then w.(buffer := w.buffer[1..], received := w.received + [w.buffer[0]]) else w
    case Close => w.(open := false, buffer := [])
  }

  function Run(capacity: nat, actions: seq<Action>): Worker {
    if actions == [] then Init(capacity)
    else Step(Run(capacity, actions[..|actions| - 1]), actions[|actions| - 1])
  }

  lemma RunOneMore(capacity: nat, actions: seq<Action>, a: Action)
    ensures Run(capacity, actions + [a]) == Step(Run(capacity, actions), a)
  {
    assert (actions + [a])[..|actions|] == actions;
  }

  /** The worker task with its mutable variables. `history` is everything that has happened to it. */
  class ForwarderTask {
    ghost const requested: nat
    ghost var history: seq<Action>
    var capacity: nat
    var buffer: seq<Event>
    var open: bool
    var skippedEvents: nat
    var eventStreamEnabled: bool
    var phase: Phase
    var input: seq<Event>
    var sent: seq<Entry>
    var dropped: set<nat>
    var rejected: set<nat>
    var received: seq<Event>
    var refused: seq<string>
    var afterClose: nat

    function Snapshot(): Worker
      reads this
    {
      Worker(capacity, buffer, open, skippedEvents, eventStreamEnabled, phase,
             input, sent, dropped, rejected, received, refused, afterClose)
    }

    /** The variables are those of the run so far. */
    ghost predicate Valid()
      reads this
    {
      Snapshot() == Run(requested, history)
    }

    constructor (channelCapacity: nat)
      ensures Valid() && requested == channelCapacity && history == []
    {
      requested, history := channelCapacity, [];
      capacity := if channelCapacity == 0 then 1 else channelCapacity;
      buffer, open, skippedEvents, eventStreamEnabled, phase := [], true, 0, true, Idle;
      input, sent, dropped, rejected, received, refused, afterClose := [], [], {}, {}, [], [], 0;
    }

    /** The select arm that takes a runtime event. */
    method NextEvent(event: Event)
      requires Valid() && eventStreamEnabled && phase == Idle
      modifies this
      ensures Valid() && history == old(history) + [Next(event)] && Snapshot() == Step(old(Snapshot()), Next(event))
    {
      RunOneMore(requested, history, Next(event));
      history := history + [Next(event)];
      if event.ServerRequest? && event.authTokensRefresh {
        refused := refused + [event.id];
        return;
      }
      input := input + [event];
      phase := if skippedEvents > 0 then AtMarker else AtEvent;
      if !open { afterClose := afterClose + 1; }
    }

    /** The next channel operation of the forward in progress. */
    method ForwardStep()
      requires Valid() && phase != Idle && input != []
      modifies this
      ensures Valid() && history == old(history) + [Proceed] && Snapshot() == Step(old(Snapshot()), Proceed)
    {
      RunOneMore(requested, history, Proceed);
      ForwardOnce();
      history := history + [Proceed];
    }

    method ForwardOnce()
      requires phase != Idle && input != []
      modifies this`buffer, this`skippedEvents, this`eventStreamEnabled, this`phase, this`sent, this`dropped, this`rejected
      ensures Snapshot() == Forward(old(Snapshot()))
    {
      var index := |input| - 1;
      var event := input[index];
      if !open {
        eventStreamEnabled := false;
        phase := Idle;
      } else if |buffer| >= capacity {
        if !RequiresDelivery(event) {
          skippedEvents := SaturatingIncrement(skippedEvents);
          dropped := dropped + {index};
          if event.ServerRequest? {
            rejected := rejected + {index};
          }
          phase := Idle;
        }
      } else if phase == AtMarker {
        buffer := buffer + [Lagged(skippedEvents)];
        sent := sent + [Own(skippedEvents)];
        skippedEvents := 0;
        phase := AtEvent;
      } else {
        buffer := buffer + [event];
        sent := sent + [Passed(index)];
        phase := Idle;
      }
    }

    /** The consumer's `next_event`. */
    method ReceiveEvent() returns (event: Event)
      requires Valid() && open && buffer != []
      modifies this
      ensures Valid() && history == old(history) + [Receive] && Snapshot() == Step(old(Snapshot()), Receive)
      ensures event == old(buffer)[0]
    {
      RunOneMore(requested, history, Receive);
      history := history + [Receive];
      event := buffer[0];
      buffer := buffer[1..];
      received := received + [event];
    }

    /** `shutdown` drops the receiver first. */
    method CloseReceiver()
      requires Valid()
      modifies this
      ensures Valid() && history == old(history) + [Close] && Snapshot() == Step(old(Snapshot()), Close)
    {
      RunOneMore(requested, history, Close);
      history := history + [Close];
      open := false;
      buffer := [];
    }
  }
}
