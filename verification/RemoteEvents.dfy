/** What the consumer of a remote connection sees: the handshake that buffers events
    (codex-rs/app-server-client/src/remote.rs:794-936), `next_event` (remote.rs:593-598), and the order of
    events across the handshake and the live loop. */
module RemoteEvents {
  import opened Text
  import opened Protocol
  import opened RemoteWorker

  const INITIALIZE_ID := StringId("initialize")

  /** A message and whether the write it may call for succeeds. */
  datatype Arrival = Arrival(wire: Wire, ok: bool)

  /** The event the typed protocol recognises in a message, if any. */
  function EventOf(wire: Wire): seq<Event> {
    match wire
    case Notification(name, known) => if known then [Notified(name)] else []
    case ServerRequest(id, name, known) => if known then [Requested(id, name)] else []
    case _ => []
  }

  /** The "method not found" error that answers a server request the protocol does not know. */
  function RefusalOf(wire: Wire): seq<Outgoing> {
    if wire.ServerRequest? && !wire.known then [Unsupported(wire.id, METHOD_NOT_FOUND)] else []
  }

  function Recognised(wires: seq<Wire>): seq<Event> {
    if wires == [] then [] else Recognised(wires[..|wires| - 1]) + EventOf(wires[|wires| - 1])
  }

  function Refusals(wires: seq<Wire>): seq<Outgoing> {
    if wires == [] then [] else Refusals(wires[..|wires| - 1]) + RefusalOf(wires[|wires| - 1])
  }

  function Wires(arrivals: seq<Arrival>): seq<Wire> {
    if arrivals == [] then [] else Wires(arrivals[..|arrivals| - 1]) + [arrivals[|arrivals| - 1].wire]
  }

  datatype Verdict = Waiting | Initialized | Failed(kind: ErrorKind)

  /** What one message means for the handshake. */
  function Judge(a: Arrival): Verdict {
    match a.wire
    case Response(id, _) => if id == INITIALIZE_ID then Initialized else Waiting
    case ErrorResponse(id, _, _) => if id == INITIALIZE_ID then Failed(OtherKind) else Waiting
    case ServerRequest(_, _, known) => if known || a.ok then Waiting else Failed(OtherKind)
    case InvalidJson => Failed(OtherKind)
    case CloseFrame => Failed(ConnectionAborted)
    case TransportError => Failed(OtherKind)
    case EndOfStream => Failed(UnexpectedEof)
    case Notification(_, _) => Waiting
    case IgnoredFrame => Waiting
  }

  /** The first message that decides the handshake; past the end, none did before the timeout. */
  function Decided(arrivals: seq<Arrival>): (n: nat)
    ensures n <= |arrivals|
    ensures forall i :: 0 <= i < n ==> Judge(arrivals[i]) == Waiting
    ensures n < |arrivals| ==> Judge(arrivals[n]) != Waiting
  {
    if arrivals == [] || Judge(arrivals[0]) != Waiting then 0 else 1 + Decided(arrivals[1..])
  }

  /** How the handshake ends, given the initial and final writes. */
  function HandshakeFailure(openOk: bool, arrivals: seq<Arrival>, closeOk: bool): Option<ErrorKind> {
    if !openOk then Some(OtherKind)
    else
      var n := Decided(arrivals);
      if n == |arrivals| then Some(TimedOut)
      else if Judge(arrivals[n]).Failed? then Some(Judge(arrivals[n]).kind)
      else if closeOk then None else Some(OtherKind)
  }

  /** The messages the handshake takes off the stream. */
  function Consumed(arrivals: seq<Arrival>): seq<Arrival> {
    var n := Decided(arrivals);
    if n < |arrivals| then arrivals[..n + 1] else arrivals
  }

  /** The body of the handshake loop. */
  method HandleDuringInitialize(arrival: Arrival, pending: seq<Event>, writes: seq<Outgoing>)
    returns (pending': seq<Event>, writes': seq<Outgoing>, verdict: Verdict)
    ensures verdict == Judge(arrival)
    ensures pending' == pending + EventOf(arrival.wire) && writes' == writes + RefusalOf(arrival.wire)
  {
    pending', writes', verdict := pending, writes, Waiting;
    match arrival.wire
    case Response(id, _) =>
      if id == INITIALIZE_ID {
        verdict := Initialized;
      }
    case ErrorResponse(id, _, _) =>
      if id == INITIALIZE_ID {
        verdict := Failed(OtherKind);
      }
    case Notification(name, known) =>
      if known {
        pending' := pending + [Notified(name)];
      }
    case ServerRequest(id, name, known) =>
      if known {
        pending' := pending + [Requested(id, name)];
      } else {
        writes' := writes + [Unsupported(id, METHOD_NOT_FOUND)];
        if !arrival.ok {
          verdict := Failed(OtherKind);
        }
      }
    case InvalidJson => verdict := Failed(OtherKind);
    case CloseFrame => verdict := Failed(ConnectionAborted);
    case IgnoredFrame =>
    case TransportError => verdict := Failed(OtherKind);
    case EndOfStream => verdict := Failed(UnexpectedEof);
  }

  method HandleNext(arrivals: seq<Arrival>, i: nat, pending: seq<Event>, writes: seq<Outgoing>)
    returns (pending': seq<Event>, writes': seq<Outgoing>, verdict: Verdict)
    requires i < |arrivals| && pending == Recognised(Wires(arrivals[..i])) && writes == Refusals(Wires(arrivals[..i]))
    ensures pending' == Recognised(Wires(arrivals[..i + 1])) && writes' == Refusals(Wires(arrivals[..i + 1]))
    ensures verdict == Judge(arrivals[i])
  {
    OneMore(arrivals, i);
    pending', writes', verdict := HandleDuringInitialize(arrivals[i], pending, writes);
  }

  /** The part of the handshake under the timeout: read until a message decides it. */
  method AwaitInitialized(arrivals: seq<Arrival>) returns (pending: seq<Event>, writes: seq<Outgoing>, verdict: Verdict)
    ensures pending == Recognised(Wires(Consumed(arrivals))) && writes == Refusals(Wires(Consumed(arrivals)))
    ensures verdict == if Decided(arrivals) < |arrivals| then Judge(arrivals[Decided(arrivals)]) else Waiting
  {
    pending, writes, verdict := [], [], Waiting;
    var i := 0;
    while i < |arrivals|
      invariant 0 <= i <= |arrivals|
      invariant Decided(arrivals) == i + Decided(arrivals[i..])
      invariant verdict == Waiting
      invariant pending == Recognised(Wires(arrivals[..i]))
      invariant writes == Refusals(Wires(arrivals[..i]))
    {
      assert arrivals[i..][1..] == arrivals[i + 1..];
      pending, writes, verdict := HandleNext(arrivals, i, pending, writes);
      if verdict != Waiting {
        return;
      }
      i := i + 1;
    }
    assert arrivals[..i] == arrivals;
  }

  method InitializeConnection(openOk: bool, arrivals: seq<Arrival>, closeOk: bool)
    returns (pending: seq<Event>, writes: seq<Outgoing>, failure: Option<ErrorKind>)
    ensures failure == HandshakeFailure(openOk, arrivals, closeOk)
    ensures openOk ==> pending == Recognised(Wires(Consumed(arrivals)))
    ensures openOk ==> [OutRequest(INITIALIZE_ID)] + Refusals(Wires(Consumed(arrivals))) <= writes
    ensures failure.None? ==> writes == [OutRequest(INITIALIZE_ID)] + Refusals(Wires(Consumed(arrivals))) + [OutNotification]
  {
    pending, writes := [], [OutRequest(INITIALIZE_ID)];
    if !openOk {
      return pending, writes, Some(OtherKind);
    }
    var events, refusals, verdict := AwaitInitialized(arrivals);
    pending, writes := events, writes + refusals;
    match verdict
    case Waiting => failure := Some(TimedOut);
    case Failed(kind) => failure := Some(kind);
    case Initialized =>
      writes := writes + [OutNotification];
      failure := if closeOk then None else Some(OtherKind);
  }

  lemma OneMore(arrivals: seq<Arrival>, i: nat)
    requires i < |arrivals|
    ensures Wires(arrivals[..i + 1]) == Wires(arrivals[..i]) + [arrivals[i].wire]
    ensures Recognised(Wires(arrivals[..i + 1])) == Recognised(Wires(arrivals[..i])) + EventOf(arrivals[i].wire)
    ensures Refusals(Wires(arrivals[..i + 1])) == Refusals(Wires(arrivals[..i])) + RefusalOf(arrivals[i].wire)
  {
    assert arrivals[..i + 1][..i] == arrivals[..i];
    ReadOne(Wires(arrivals[..i]), arrivals[i].wire);
  }

  lemma ReadOne(wires: seq<Wire>, wire: Wire)
    ensures Recognised(wires + [wire]) == Recognised(wires) + EventOf(wire)
    ensures Refusals(wires + [wire]) == Refusals(wires) + RefusalOf(wire)
  {
    assert (wires + [wire])[..|wires|] == wires;
  }

  /** The consumer's side of a connection: events buffered by the handshake, then the channel. `given` is
      all it was ever given, `seen` what `next_event` has returned. */
  class RemoteClient {
    var pendingEvents: seq<Event>
    var channel: seq<Event>
    ghost var given: seq<Event>
    ghost var seen: seq<Event>

    /** The events still ahead of the consumer, in the order it will see them. */
    function Ahead(): seq<Event>
      reads this
    {
      pendingEvents + channel
    }

    ghost predicate Valid()
      reads this
    {
      seen + Ahead() == given
    }

    constructor (pending: seq<Event>)
      ensures Valid() && given == pending && seen == []
    {
      pendingEvents, channel, given, seen := pending, [], pending, [];
    }

    /** The worker sends an event. */
    method Receive(event: Event)
      requires Valid()
      modifies this`channel, this`given
      ensures Valid() && given == old(given) + [event] && Ahead() == old(Ahead()) + [event]
    {
      channel, given := channel + [event], given + [event];
    }

    /** Nothing is returned only when nothing is ahead; otherwise the first event ahead is. */
    method NextEvent() returns (event: Option<Event>)
      requires Valid()
      modifies this`pendingEvents, this`channel, this`seen
      ensures Valid()
      ensures event.None? <==> old(Ahead()) == []
      ensures event.None? ==> Ahead() == old(Ahead()) && seen == old(seen)
      ensures event.Some? ==> [event.value] + Ahead() == old(Ahead()) && seen == old(seen) + [event.value]
    {
      if pendingEvents != [] {
        event := Some(pendingEvents[0]);
        pendingEvents := pendingEvents[1..];
      } else if channel != [] {
        event := Some(channel[0]);
        channel := channel[1..];
      } else {
        return None;
      }
      seen := seen + [event.value];
    }
  }

  /** `connect_with_stream`: the handshake, then a client that starts with the events it buffered. */
  method Connect(openOk: bool, arrivals: seq<Arrival>, closeOk: bool) returns (client: RemoteClient?, failure: Option<ErrorKind>)
    ensures failure == HandshakeFailure(openOk, arrivals, closeOk) && (client == null <==> failure.Some?)
    ensures client != null ==>
      fresh(client) && client.Valid() && client.given == Recognised(Wires(Consumed(arrivals))) && client.seen == []
  {
    var pending, writes, outcome := InitializeConnection(openOk, arrivals, closeOk);
    failure, client := outcome, null;
    if failure.None? {
      client := new RemoteClient(pending);
    }
  }

  // ----- the live loop -----

  /** The messages the running worker reads. */
  function Reads(actions: seq<Action>): seq<Wire> {
    if actions == [] then []
    else
      var front, last := actions[..|actions| - 1], actions[|actions| - 1];
      if last.Read? && Run(front).running then Reads(front) + [last.wire] else Reads(front)
  }

  /** The messages it reads while somebody consumes events. */
  function Watched(actions: seq<Action>): seq<Wire> {
    if actions == [] then []
    else
      var front, last := actions[..|actions| - 1], actions[|actions| - 1];
      if last.Read? && Run(front).running && Run(front).consumerOpen then Watched(front) + [last.wire]
      else Watched(front)
  }

  /** The turns that break the connection: a request or refusal that cannot be written, and every
      message after which there is no stream to read. */
  predicate Breaks(w: Worker, a: Action) {
    match a
    case Take(Request(id), ok) => !ok && id !in w.pending
    case Read(ServerRequest(_, _, known), ok) => !ok && !known
    case Read(InvalidJson, _) => true
    case Read(CloseFrame, _) => true
    case Read(TransportError, _) => true
    case Read(EndOfStream, _) => true
    case _ => false
  }

  /** The connection broke while somebody consumed events. */
  predicate Broken(actions: seq<Action>) {
    actions != [] &&
    var front, last := actions[..|actions| - 1], actions[|actions| - 1];
    Broken(front) || (Run(front).running && Run(front).consumerOpen && Breaks(Run(front), last))
  }

  lemma CommandEvents(w: Worker, command: Command, ok: bool)
    requires w.running
    ensures var w', broke := HandleCommand(w, command, ok), Breaks(w, Take(command, ok));
      && w'.events == (if w.consumerOpen && broke then w.events + [Disconnected] else w.events)
      && (broke ==> !w'.running)
  {
  }

  lemma MessageEvents(w: Worker, wire: Wire, ok: bool)
    requires w.running
    ensures var w', broke := HandleMessage(w, wire, ok), Breaks(w, Read(wire, ok));
      && (broke ==> EventOf(wire) == [] && !w'.running)
      && w'.events == (if !w.consumerOpen then w.events
                       else if broke then w.events + [Disconnected] else w.events + EventOf(wire))
  {
  }

  function Ending(broken: bool): seq<Event> {
    if broken then [Disconnected] else []
  }

  lemma LiveStep(w: Worker, a: Action, seen: seq<Wire>, w': Worker)
    requires w.running && w.events == Recognised(seen) && w' == Step(w, a)
    ensures var watched := if a.Read? && w.consumerOpen then seen + [a.wire] else seen;
      var broken := w.consumerOpen && Breaks(w, a);
      w'.events == Recognised(watched) + Ending(broken) && (broken ==> !w'.running)
  {
    match a
    case Take(command, ok) => CommandEvents(w, command, ok);
    case Read(wire, ok) =>
      MessageEvents(w, wire, ok);
      ReadOne(seen, wire);
    case _ =>
  }

  /** The recognised messages in wire order, then at most one `Disconnected`, after which the loop is
      over. */
  lemma {:induction false} LiveEventsInOrder(actions: seq<Action>)
    ensures Run(actions).events == Recognised(Watched(actions)) + Ending(Broken(actions))
    ensures Broken(actions) ==> !Run(actions).running
  {
    if actions != [] {
      var front, last := actions[..|actions| - 1], actions[|actions| - 1];
      LiveEventsInOrder(front);
      if Run(front).running {
        assert Recognised(Watched(front)) + [] == Recognised(Watched(front));
        LiveStep(Run(front), last, Watched(front), Run(actions));
      }
    }
  }

  lemma JoinStep(a: seq<Wire>, front: seq<Wire>, wire: Wire, b: seq<Wire>)
    requires Recognised(a + front) == Recognised(a) + Recognised(front) && b == front + [wire]
    ensures Recognised(a + b) == Recognised(a) + Recognised(b)
  {
    Associate(a, front, [wire]);
    ReadOne(a + front, wire);
    ReadOne(front, wire);
    Associate(Recognised(a), Recognised(front), EventOf(wire));
  }

  lemma JoinNothing(a: seq<Wire>, b: seq<Wire>)
    requires b == []
    ensures Recognised(a + b) == Recognised(a) + Recognised(b)
  {
    assert a + b == a;
  }

  lemma {:induction false} RecognisedJoin(a: seq<Wire>, b: seq<Wire>)
    ensures Recognised(a + b) == Recognised(a) + Recognised(b)
    decreases |b|
  {
    if b == [] {
      JoinNothing(a, b);
    } else {
      var front, wire := b[..|b| - 1], b[|b| - 1];
      assert b == front + [wire];
      RecognisedJoin(a, front);
      JoinStep(a, front, wire, b);
    }
  }

  /** The messages the running worker reads, with the fate of the writes they call for. */
  function ReadBy(actions: seq<Action>): seq<Arrival> {
    if actions == [] then []
    else
      var front, last := actions[..|actions| - 1], actions[|actions| - 1];
      if last.Read? && Run(front).running then ReadBy(front) + [Arrival(last.wire, last.ok)] else ReadBy(front)
  }

  lemma WiresNext(arrivals: seq<Arrival>, a: Arrival)
    ensures Wires(arrivals + [a]) == Wires(arrivals) + [a.wire]
  {
    assert (arrivals + [a])[..|arrivals|] == arrivals;
  }

  lemma {:induction false} WiresLength(arrivals: seq<Arrival>)
    ensures |Wires(arrivals)| == |arrivals|
  {
    if arrivals != [] {
      WiresLength(arrivals[..|arrivals| - 1]);
    }
  }

  lemma {:induction false} WiresJoin(a: seq<Arrival>, b: seq<Arrival>)
    ensures Wires(a + b) == Wires(a) + Wires(b)
    decreases |b|
  {
    if b == [] {
      assert a + b == a;
    } else {
      var front, last := b[..|b| - 1], b[|b| - 1];
      assert b == front + [last] && a + b == (a + front) + [last];
      WiresJoin(a, front);
      WiresNext(a + front, last);
      WiresNext(front, last);
    }
  }

  /** The worker reads while somebody watches, and then perhaps on. */
  lemma {:induction false} WatchedFirst(actions: seq<Action>)
    ensures Reads(actions) == Wires(ReadBy(actions)) && Watched(actions) <= Reads(actions)
    ensures Run(actions).consumerOpen ==> Watched(actions) == Reads(actions)
  {
    if actions != [] {
      var front, last := actions[..|actions| - 1], actions[|actions| - 1];
      WatchedFirst(front);
      KeepsConsumer(Run(front), last);
      if last.Read? {
        WiresNext(ReadBy(front), Arrival(last.wire, last.ok));
      }
    }
  }

  lemma KeepsConsumer(w: Worker, a: Action)
    ensures Step(w, a).consumerOpen == (w.consumerOpen && !a.DropConsumer?)
  {
  }

  /** The worker reads the stream where the handshake left off. */
  ghost predicate Continues(actions: seq<Action>, arrivals: seq<Arrival>) {
    Consumed(arrivals) + ReadBy(actions) <= arrivals
  }

  lemma {:induction false} WiresOfPrefix(a: seq<Arrival>, b: seq<Arrival>, n: nat)
    requires a <= b && n <= |a|
    ensures |Wires(a)| == |a| && |Wires(b)| == |b|
    ensures Wires(a)[..n] == Wires(b)[..n] == Wires(b[..n])
  {
    WiresLength(a);
    WiresLength(b);
    assert b == a + b[|a|..] && b == b[..n] + b[n..];
    WiresJoin(a, b[|a|..]);
    WiresJoin(b[..n], b[n..]);
    WiresLength(b[..n]);
  }

  /** How much of the stream the consumer has been told about. */
  function Shown(arrivals: seq<Arrival>, actions: seq<Action>): nat {
    |Consumed(arrivals)| + |Watched(actions)|
  }

  lemma WatchedWires(arrivals: seq<Arrival>, actions: seq<Action>)
    requires Continues(actions, arrivals)
    ensures Shown(arrivals, actions) <= |arrivals|
    ensures Wires(Consumed(arrivals)) + Watched(actions) == Wires(arrivals[..Shown(arrivals, actions)])
  {
    var early, late, n := Consumed(arrivals), ReadBy(actions), Shown(arrivals, actions);
    WatchedFirst(actions);
    WiresLength(early);
    WiresLength(late);
    WiresJoin(early, late);
    WiresOfPrefix(early + late, arrivals, n);
    assert (Wires(early) + Wires(late))[..n] == Wires(early) + Watched(actions);
  }

  /** Over one stream of messages, read first by the handshake and then by the live loop: the consumer is
      given exactly the recognised messages of the stream, in order, as far as it has been read while
      somebody consumed, then at most one `Disconnected`; and sees them in that order. */
  lemma EventsFollowTheWire(arrivals: seq<Arrival>, actions: seq<Action>, client: RemoteClient)
    requires Continues(actions, arrivals) && client.Valid()
    requires client.given == Recognised(Wires(Consumed(arrivals))) + Run(actions).events
    ensures Shown(arrivals, actions) <= |arrivals|
    ensures var events := Recognised(Wires(arrivals[..Shown(arrivals, actions)]));
      && client.given == events + Ending(Broken(actions)) && Disconnected !in events
      && client.seen <= client.given && (client.Ahead() == [] ==> client.seen == client.given)
  {
    var early, late, tail := Wires(Consumed(arrivals)), Watched(actions), Ending(Broken(actions));
    WatchedWires(arrivals, actions);
    LiveEventsInOrder(actions);
    RecognisedJoin(early, late);
    Associate(Recognised(early), Recognised(late), tail);
    NeverDisconnected(early + late);
  }

  lemma {:induction false} NeverDisconnected(wires: seq<Wire>)
    ensures Disconnected !in Recognised(wires)
  {
    if wires != [] {
      NeverDisconnected(wires[..|wires| - 1]);
    }
  }

  // ----- refusals -----

  function RefusalsIn(writes: seq<Outgoing>): seq<Outgoing> {
    if writes == [] then []
    else if writes[|writes| - 1].Unsupported? then RefusalsIn(writes[..|writes| - 1]) + [writes[|writes| - 1]]
    else RefusalsIn(writes[..|writes| - 1])
  }

  lemma WriteOne(writes: seq<Outgoing>, out: Outgoing)
    ensures RefusalsIn(writes + [out]) == RefusalsIn(writes) + (if out.Unsupported? then [out] else [])
  {
    assert (writes + [out])[..|writes|] == writes;
  }

  lemma CommandRefusals(w: Worker, command: Command, ok: bool)
    ensures RefusalsIn(HandleCommand(w, command, ok).writes) == RefusalsIn(w.writes)
  {
    match command
    case Request(id) => WriteOne(w.writes, OutRequest(id));
    case Notify => WriteOne(w.writes, OutNotification);
    case Resolve(id) => WriteOne(w.writes, OutResult(id));
    case Reject(id, code) => WriteOne(w.writes, OutError(id, code));
    case Shutdown =>
  }

  lemma MessageRefusals(w: Worker, wire: Wire, ok: bool)
    ensures RefusalsIn(HandleMessage(w, wire, ok).writes) == RefusalsIn(w.writes) + RefusalOf(wire)
  {
    match wire
    case ServerRequest(id, _, known) => WriteOne(w.writes, Unsupported(id, METHOD_NOT_FOUND));
    case _ =>
  }

  /** One attempted "method not found" per unknown server request read, in order, and no other. */
  lemma {:induction false} UnknownRequestsRefused(actions: seq<Action>)
    ensures RefusalsIn(Run(actions).writes) == Refusals(Reads(actions))
  {
    if actions != [] {
      var front, last := actions[..|actions| - 1], actions[|actions| - 1];
      UnknownRequestsRefused(front);
      var w := Run(front);
      if w.running {
        match last
        case Take(command, ok) => CommandRefusals(w, command, ok);
        case Read(wire, ok) =>
          MessageRefusals(w, wire, ok);
          ReadOne(Reads(front), wire);
        case _ =>
      }
    }
  }

  lemma {:induction false} RefusalsJoin(a: seq<Wire>, b: seq<Wire>)
    ensures Refusals(a + b) == Refusals(a) + Refusals(b)
    decreases |b|
  {
    if b == [] {
      assert a + b == a;
    } else {
      var front, wire := b[..|b| - 1], b[|b| - 1];
      assert b == front + [wire] && a + b == (a + front) + [wire];
      RefusalsJoin(a, front);
      ReadOne(a + front, wire);
      ReadOne(front, wire);
    }
  }

  lemma {:induction false} AllRefusals(wires: seq<Wire>)
    ensures RefusalsIn([OutRequest(INITIALIZE_ID)] + Refusals(wires)) == Refusals(wires)
  {
    var first := [OutRequest(INITIALIZE_ID)];
    if wires == [] {
      assert first == [] + first;
      WriteOne([], first[0]);
    } else {
      var front, wire := wires[..|wires| - 1], wires[|wires| - 1];
      AllRefusals(front);
      ReadOne(front, wire);
      assert front + [wire] == wires;
      if RefusalOf(wire) != [] {
        assert first + Refusals(wires) == (first + Refusals(front)) + RefusalOf(wire);
        WriteOne(first + Refusals(front), RefusalOf(wire)[0]);
      } else {
        assert Refusals(wires) == Refusals(front);
      }
    }
  }

  /** The same over one stream, handshake included: `opening` is what a successful handshake wrote. */
  lemma RefusalsFollowTheWire(arrivals: seq<Arrival>, actions: seq<Action>, opening: seq<Outgoing>)
    requires opening == [OutRequest(INITIALIZE_ID)] + Refusals(Wires(Consumed(arrivals))) + [OutNotification]
    ensures RefusalsIn(opening) + RefusalsIn(Run(actions).writes) == Refusals(Wires(Consumed(arrivals) + ReadBy(actions)))
  {
    var early := Wires(Consumed(arrivals));
    AllRefusals(early);
    WriteOne([OutRequest(INITIALIZE_ID)] + Refusals(early), OutNotification);
    UnknownRequestsRefused(actions);
    WatchedFirst(actions);
    WiresJoin(Consumed(arrivals), ReadBy(actions));
    RefusalsJoin(early, Reads(actions));
  }
}
